/** The scoring engine: a BMI from height and weight, and a score that starts
    at 100 and loses one tiered penalty per factor. Option labels are matched
    literally, in English or in Arabic. */
module Scoring {
  import opened Wrappers
  import opened Answers
  import opened Catalog

  /** Height and weight are both stored as positive numbers. */
  predicate PositiveMeasurements(answers: AnswerSet)
  {
    && Height.id in answers && answers[Height.id].Num? && answers[Height.id].value > 0.0
    && Weight.id in answers && answers[Weight.id].Num? && answers[Weight.id].value > 0.0
  }

  /** `calculateBmi`: weight in kilograms over the square of the height in
      metres, or 0 when either is missing, NaN or not positive. */
  function CalculateBmi(answers: AnswerSet): (bmi: real)
    ensures bmi >= 0.0
    ensures bmi > 0.0 <==> PositiveMeasurements(answers)
    ensures bmi > 0.0 ==> bmi * answers[Height.id].value * answers[Height.id].value == 10000.0 * answers[Weight.id].value
  {
    var heightCm := NumberOf(Get(answers, Height.id));
    var weightKg := NumberOf(Get(answers, Weight.id));
    if Above(heightCm, 0.0) && Above(weightKg, 0.0) then
      var heightM := heightCm.value / 100.0;
      weightKg.value / (heightM * heightM)
    else
      0.0
  }

  /** The BMI penalty: nothing exactly on the healthy band [18.5, 25). */
  function BmiPenalty(bmi: real): (p: nat)
    ensures p <= 20
    ensures p == 0 <==> 18.5 <= bmi < 25.0
    ensures p == 20 <==> !(18.5 <= bmi < 30.0)
    ensures p == 10 <==> 25.0 <= bmi < 30.0
  {
    if bmi < 18.5 || bmi >= 30.0 then 20
    else if bmi >= 25.0 then 10
    else 0
  }

  /** The sleep penalty: the [6,9] band costs nothing, the [5,10] band
      around it costs 7, and anything outside costs 15. NaN costs nothing. */
  function SleepPenalty(sleep: Option<real>): (p: nat)
    ensures p <= 15
    ensures p == 0 <==> sleep.None? || 6.0 <= sleep.value <= 9.0
    ensures p == 15 <==> sleep.Some? && !(5.0 <= sleep.value <= 10.0)
    ensures p == 7 <==> sleep.Some? && 5.0 <= sleep.value <= 10.0 && !(6.0 <= sleep.value <= 9.0)
  {
    if Below(sleep, 5.0) || Above(sleep, 10.0) then 15
    else if Below(sleep, 6.0) || Above(sleep, 9.0) then 7
    else 0
  }

  /** Activity: fewer days per week cost more. */
  function ActivityPenalty(a: Option<Answer>): (p: nat)
    ensures p <= 15
    ensures ByPosition(ActivityDays, [15, 10, 5, 0], 0, a, p)
  {
    if IsLabel(a, "0 days") || IsLabel(a, "0 أيام") then 15
    else if IsLabel(a, "1-2 days") || IsLabel(a, "1-2 يوم") then 10
    else if IsLabel(a, "3-4 days") || IsLabel(a, "3-4 أيام") then 5
    else 0
  }

  /** Nutrition exactly as the scorer is written: its Arabic label for the
      3-4 tier is "3-4 حصة", which the catalog never offers. */
  function NutritionPenaltyAsWritten(a: Option<Answer>): (p: nat)
    ensures p <= 15
    ensures IsLabel(a, "3-4 حصة") ==> p == 5
  {
    if IsLabel(a, "0 servings") || IsLabel(a, "0 حصص") then 15
    else if IsLabel(a, "1-2 servings") || IsLabel(a, "1-2 حصة") then 10
    else if IsLabel(a, "3-4 servings") || IsLabel(a, "3-4 حصة") then 5
    else 0
  }

  /** The Arabic option the catalog offers for the 3-4 tier costs nothing as
      written, while its English counterpart costs 5. */
  lemma NutritionAsWrittenMisses34()
    ensures OptionsIn(NutritionServings, Ar)[2] == "3-4 حصص"
    ensures NutritionPenaltyAsWritten(Some(Str(OptionsIn(NutritionServings, En)[2]))) == 5
    ensures NutritionPenaltyAsWritten(Some(Str(OptionsIn(NutritionServings, Ar)[2]))) == 0
  {
  }

  /** Nutrition with the catalog's Arabic label for the 3-4 tier: fewer
      servings cost more, in either language. */
  function NutritionPenalty(a: Option<Answer>): (p: nat)
    ensures p <= 15
    ensures ByPosition(NutritionServings, [15, 10, 5, 0], 0, a, p)
  {
    if IsLabel(a, "0 servings") || IsLabel(a, "0 حصص") then 15
    else if IsLabel(a, "1-2 servings") || IsLabel(a, "1-2 حصة") then 10
    else if IsLabel(a, "3-4 servings") || IsLabel(a, "3-4 حصص") then 5
    else 0
  }

  /** The two nutrition readings differ on two labels only: the catalog's
      Arabic 3-4 option, which only the corrected reading charges, and the
      label the scorer tests instead, which no catalog question offers. */
  lemma NutritionReadingsDiffer(a: Option<Answer>)
    ensures a == Some(Str("3-4 حصص")) ==> NutritionPenaltyAsWritten(a) == 0 && NutritionPenalty(a) == 5
    ensures a == Some(Str("3-4 حصة")) ==> NutritionPenaltyAsWritten(a) == 5 && NutritionPenalty(a) == 0
    ensures a != Some(Str("3-4 حصص")) && a != Some(Str("3-4 حصة")) ==> NutritionPenaltyAsWritten(a) == NutritionPenalty(a)
  {
  }

  /** Which nutrition tiers a computation uses: those of the scorer as
      written, or the corrected ones that match the catalog's Arabic label. */
  datatype Reading = AsWritten | Corrected

  /** The nutrition penalty under a reading. */
  function NutritionPenaltyIn(r: Reading, a: Option<Answer>): (p: nat)
    ensures p <= 15
    ensures r == AsWritten ==> p == NutritionPenaltyAsWritten(a)
    ensures r == Corrected ==> p == NutritionPenalty(a)
  {
    match r
    case AsWritten => NutritionPenaltyAsWritten(a)
    case Corrected => NutritionPenalty(a)
  }

  /** Smoking: regular smokers lose 10, occasional ones 5, never and former none. */
  function SmokingPenalty(a: Option<Answer>): (p: nat)
    ensures p <= 10
    ensures ByPosition(Smoking, [0, 5, 10, 0], 0, a, p)
  {
    if IsLabel(a, "Regularly") || IsLabel(a, "بانتظام") then 10
    else if IsLabel(a, "Occasionally") || IsLabel(a, "أحياناً") then 5
    else 0
  }

  /** Stress: high and very high lose 5. */
  function StressPenalty(a: Option<Answer>): (p: nat)
    ensures p <= 5
    ensures ByPosition(Stress, [0, 0, 5, 5], 0, a, p)
  {
    if IsLabel(a, "High") || IsLabel(a, "Very High") || IsLabel(a, "مرتفع") || IsLabel(a, "مرتفع جداً") then 5
    else 0
  }

  /** Water: less than a litre a day loses 5. */
  function WaterPenalty(a: Option<Answer>): (p: nat)
    ensures p <= 5
    ensures ByPosition(Water, [5, 0, 0, 0], 0, a, p)
  {
    if IsLabel(a, "Less than 1 liter") || IsLabel(a, "أقل من 1 لتر") then 5
    else 0
  }

  /** Fast food: three or more times a week loses 5, once or twice a week 2. */
  function FastFoodPenalty(a: Option<Answer>): (p: nat)
    ensures p <= 5
    ensures ByPosition(FastFood, [0, 0, 2, 5], 0, a, p)
  {
    if IsLabel(a, "3 or more times per week") || IsLabel(a, "3 مرات أو أكثر في الأسبوع") then 5
    else if IsLabel(a, "1-2 times per week") || IsLabel(a, "1-2 مرة في الأسبوع") then 2
    else 0
  }

  /** Coffee: four or more cups a day loses 5. */
  function CoffeePenalty(a: Option<Answer>): (p: nat)
    ensures p <= 5
    ensures ByPosition(Coffee, [0, 0, 0, 5], 0, a, p)
  {
    if IsLabel(a, "4 or more cups") || IsLabel(a, "4 فناجين أو أكثر") then 5
    else 0
  }

  /** Energy drinks: daily loses 5, weekly 2. */
  function EnergyDrinksPenalty(a: Option<Answer>): (p: nat)
    ensures p <= 5
    ensures ByPosition(EnergyDrinks, [0, 0, 2, 5], 0, a, p)
  {
    if IsLabel(a, "Daily or almost daily") || IsLabel(a, "يومياً أو تقريباً يومياً") then 5
    else if IsLabel(a, "Weekly (1–3 times per week)") || IsLabel(a, "أسبوعياً (1-3 مرات في الأسبوع)") then 2
    else 0
  }

  /** The penalty each factor subtracts from 100. */
  datatype Penalties = Penalties(
    bmi: nat, sleep: nat, activity: nat, nutrition: nat, smoking: nat,
    stress: nat, water: nat, fastFood: nat, coffee: nat, energyDrinks: nat)
  {
    function Total(): nat
    {
      bmi + sleep + activity + nutrition + smoking + stress + water + fastFood + coffee + energyDrinks
    }

    /** Each penalty is at most its factor's largest tier. */
    predicate WithinMaxima()
    {
      && bmi <= 20 && sleep <= 15 && activity <= 15 && nutrition <= 15 && smoking <= 10
      && stress <= 5 && water <= 5 && fastFood <= 5 && coffee <= 5 && energyDrinks <= 5
    }
  }

  /** The largest tier of every factor; together they take exactly the 100 points. */
  const Maxima := Penalties(20, 15, 15, 15, 10, 5, 5, 5, 5, 5)

  /** The ten penalties of an answer set, given its BMI; `AsWritten` is
      what `calculateScore` computes. */
  function PenaltiesOf(answers: AnswerSet, bmi: real, r: Reading): (p: Penalties)
    ensures p.WithinMaxima()
    ensures p.Total() <= Maxima.Total() == 100
  {
    Penalties(
      BmiPenalty(bmi),
      SleepPenalty(NumberOf(Get(answers, SleepHours.id))),
      ActivityPenalty(Get(answers, ActivityDays.id)),
      NutritionPenaltyIn(r, Get(answers, NutritionServings.id)),
      SmokingPenalty(Get(answers, Smoking.id)),
      StressPenalty(Get(answers, Stress.id)),
      WaterPenalty(Get(answers, Water.id)),
      FastFoodPenalty(Get(answers, FastFood.id)),
      CoffeePenalty(Get(answers, Coffee.id)),
      EnergyDrinksPenalty(Get(answers, EnergyDrinks.id)))
  }

  /** `calculateScore` (under `AsWritten`): 100 less every penalty, floored
      at 0. The penalties never exceed 100, so the floor never changes the
      result. */
  function CalculateScore(answers: AnswerSet, bmi: real, r: Reading): (score: int)
    ensures 0 <= score <= 100
    ensures score == 100 - PenaltiesOf(answers, bmi, r).Total()
  {
    var raw := 100 - PenaltiesOf(answers, bmi, r).Total();
    if raw < 0 then 0 else raw
  }

  /** The scorer as written and the corrected one agree on every factor but
      nutrition, and their scores differ by 5 exactly on the two labels
      where the readings of nutrition differ. */
  lemma {:induction false} ScoreReadingsDiffer(answers: AnswerSet, bmi: real)
    ensures var a := Get(answers, NutritionServings.id);
      PenaltiesOf(answers, bmi, AsWritten) == PenaltiesOf(answers, bmi, Corrected).(nutrition := NutritionPenaltyAsWritten(a))
    ensures var a := Get(answers, NutritionServings.id);
      CalculateScore(answers, bmi, AsWritten) ==
        CalculateScore(answers, bmi, Corrected) + (if a == Some(Str("3-4 حصص")) then 5 else if a == Some(Str("3-4 حصة")) then -5 else 0)
  {
    NutritionReadingsDiffer(Get(answers, NutritionServings.id));
  }

  /** Any respondent of 170 cm and 70 kg with healthy habits in every
      factor has a BMI of about 24.22 and keeps all 100 points. */
  lemma HealthyScenario(answers: AnswerSet)
    requires Get(answers, Height.id) == Some(Num(170.0)) && Get(answers, Weight.id) == Some(Num(70.0))
    requires Get(answers, SleepHours.id) == Some(Num(8.0))
    requires Get(answers, ActivityDays.id) == Some(Str("5+ days"))
    requires Get(answers, NutritionServings.id) == Some(Str("5+ servings"))
    requires Get(answers, Smoking.id) == Some(Str("Never"))
    requires Get(answers, Stress.id) == Some(Str("Low"))
    requires Get(answers, Water.id) == Some(Str("2-3 liters"))
    requires Get(answers, FastFood.id) == Some(Str("Rarely or never"))
    requires Get(answers, Coffee.id) == Some(Str("1 cup"))
    requires Get(answers, EnergyDrinks.id) == Some(Str("Never"))
    ensures 24.22 <= CalculateBmi(answers) < 24.23
    ensures CalculateScore(answers, CalculateBmi(answers), AsWritten) == 100
  {
    assert CalculateBmi(answers) == 70.0 / (1.7 * 1.7);
    HealthyTiersCostNothing();
  }

  lemma HealthyTiersCostNothing()
    ensures ActivityPenalty(Some(Str("5+ days"))) == 0
    ensures NutritionPenaltyAsWritten(Some(Str("5+ servings"))) == 0
    ensures SmokingPenalty(Some(Str("Never"))) == 0
    ensures StressPenalty(Some(Str("Low"))) == 0
    ensures WaterPenalty(Some(Str("2-3 liters"))) == 0
    ensures FastFoodPenalty(Some(Str("Rarely or never"))) == 0
    ensures CoffeePenalty(Some(Str("1 cup"))) == 0
    ensures EnergyDrinksPenalty(Some(Str("Never"))) == 0
  {
  }

  /** Any respondent of 160 cm and 45 kg in the worst tier of every factor
      has a BMI of about 17.58, loses every factor's largest tier (exactly
      100 points) and scores 0. */
  lemma WorstScenario(answers: AnswerSet)
    requires Get(answers, Height.id) == Some(Num(160.0)) && Get(answers, Weight.id) == Some(Num(45.0))
    requires Get(answers, SleepHours.id) == Some(Num(4.0))
    requires Get(answers, ActivityDays.id) == Some(Str("0 days"))
    requires Get(answers, NutritionServings.id) == Some(Str("0 servings"))
    requires Get(answers, Smoking.id) == Some(Str("Regularly"))
    requires Get(answers, Stress.id) == Some(Str("Very High"))
    requires Get(answers, Water.id) == Some(Str("Less than 1 liter"))
    requires Get(answers, FastFood.id) == Some(Str("3 or more times per week"))
    requires Get(answers, Coffee.id) == Some(Str("4 or more cups"))
    requires Get(answers, EnergyDrinks.id) == Some(Str("Daily or almost daily"))
    ensures 17.57 <= CalculateBmi(answers) < 17.58
    ensures PenaltiesOf(answers, CalculateBmi(answers), AsWritten) == Maxima
    ensures CalculateScore(answers, CalculateBmi(answers), AsWritten) == 0
  {
    assert CalculateBmi(answers) == 45.0 / (1.6 * 1.6);
  }

  /** Missing measurements give BMI 0, which takes the largest BMI penalty. */
  lemma MissingMeasurementsCostTwenty(answers: AnswerSet)
    requires Height.id !in answers || Weight.id !in answers
    ensures CalculateBmi(answers) == 0.0
    ensures BmiPenalty(CalculateBmi(answers)) == 20
  {
  }

  /** A height and a weight that pass their validators give a positive BMI. */
  lemma ValidMeasurementsGivePositiveBmi(answers: AnswerSet, h: real, w: real)
    requires Height.validation.value.Accepts(h) && Weight.validation.value.Accepts(w)
    requires Get(answers, Height.id) == Some(Num(h)) && Get(answers, Weight.id) == Some(Num(w))
    ensures CalculateBmi(answers) > 0.0
  {
  }
}
