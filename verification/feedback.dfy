/** The feedback deriver: one bucket each for BMI, sleep, activity and
    nutrition, and an ordered list of lifestyle notes. Message texts are
    represented by their bucket tokens. */
module Feedback {
  import opened Wrappers
  import opened Answers
  import opened Catalog
  import opened Scoring

  datatype BmiBucket = Underweight | Normal | Overweight | Obese

  datatype Level = Poor | Moderate | Good

  /** One lifestyle message; the six concerns in their fixed order, then the all-clear. */
  datatype LifestyleNote = SmokingNote | StressNote | WaterNote | FastFoodNote | CoffeeNote | EnergyDrinksNote | GoodLifestyle

  datatype Bundle = Bundle(bmi: BmiBucket, sleep: Level, activity: Level, nutrition: Level, lifestyle: seq<LifestyleNote>)

  /** `getBMIFeedback`: the bucket agrees with the BMI penalty of the score. */
  function BmiFeedback(bmi: real): (b: BmiBucket)
    ensures b == Underweight <==> bmi < 18.5
    ensures b == Underweight || b == Obese <==> BmiPenalty(bmi) == 20
    ensures b == Overweight <==> BmiPenalty(bmi) == 10
    ensures b == Normal <==> BmiPenalty(bmi) == 0
  {
    if bmi < 18.5 then Underweight
    else if bmi >= 30.0 then Obese
    else if bmi >= 25.0 then Overweight
    else Normal
  }

  /** `getSleepFeedback`: its thresholds are not those of the sleep penalty.
      Poor sleep is always penalised and moderate sleep never is, but "good"
      sleep is penalised when it exceeds nine hours. NaN reads as good. */
  function SleepFeedback(sleep: Option<real>): (l: Level)
    ensures l == Poor ==> SleepPenalty(sleep) >= 7
    ensures l == Moderate ==> SleepPenalty(sleep) == 0
    ensures l == Good && SleepPenalty(sleep) > 0 ==> sleep.Some? && sleep.value > 9.0
    ensures l == Poor <==> Below(sleep, 6.0)
    ensures l == Good <==> !Below(sleep, 7.0)
    ensures sleep.None? ==> l == Good
  {
    if Below(sleep, 6.0) then Poor
    else if Below(sleep, 7.0) then Moderate
    else Good
  }

  /** Eleven hours of sleep read as good yet cost the full sleep penalty. */
  lemma OversleepReadsGood()
    ensures SleepFeedback(Some(11.0)) == Good && SleepPenalty(Some(11.0)) == 15
  {
  }

  /** `getActivityFeedback`: only the lowest tier is poor, the two middle
      tiers are moderate, and anything else (the top tier, an unknown label,
      no answer) is good; so the bucket agrees with the activity penalty. */
  function ActivityFeedback(a: Option<Answer>): (l: Level)
    ensures ByPosition(ActivityDays, [Poor, Moderate, Moderate, Good], Good, a, l)
    ensures l == Poor <==> ActivityPenalty(a) == 15
    ensures l == Good <==> ActivityPenalty(a) == 0
  {
    if IsLabel(a, "0 days") || IsLabel(a, "0 أيام") then Poor
    else if IsLabel(a, "1-2 days") || IsLabel(a, "1-2 يوم") || IsLabel(a, "3-4 days") || IsLabel(a, "3-4 أيام") then Moderate
    else Good
  }

  /** `getNutritionFeedback` exactly as written: it agrees with the scorer as
      written, and shares its Arabic label "3-4 حصة" for the 3-4 tier. */
  function NutritionFeedbackAsWritten(a: Option<Answer>): (l: Level)
    ensures l == Poor <==> NutritionPenaltyAsWritten(a) == 15
    ensures l == Good <==> NutritionPenaltyAsWritten(a) == 0
  {
    if IsLabel(a, "0 servings") || IsLabel(a, "0 حصص") then Poor
    else if IsLabel(a, "1-2 servings") || IsLabel(a, "1-2 حصة") || IsLabel(a, "3-4 servings") || IsLabel(a, "3-4 حصة") then Moderate
    else Good
  }

  /** As written, the catalog's Arabic 3-4 option reads as good nutrition
      while its English counterpart reads as moderate. */
  lemma NutritionFeedbackAsWrittenMisses34()
    ensures NutritionFeedbackAsWritten(Some(Str(OptionsIn(NutritionServings, En)[2]))) == Moderate
    ensures NutritionFeedbackAsWritten(Some(Str(OptionsIn(NutritionServings, Ar)[2]))) == Good
  {
  }

  /** Nutrition feedback with the catalog's Arabic label for the 3-4 tier:
      only the lowest tier is poor, in either language. */
  function NutritionFeedback(a: Option<Answer>): (l: Level)
    ensures ByPosition(NutritionServings, [Poor, Moderate, Moderate, Good], Good, a, l)
    ensures l == Poor <==> NutritionPenalty(a) == 15
    ensures l == Good <==> NutritionPenalty(a) == 0
  {
    if IsLabel(a, "0 servings") || IsLabel(a, "0 حصص") then Poor
    else if IsLabel(a, "1-2 servings") || IsLabel(a, "1-2 حصة") || IsLabel(a, "3-4 servings") || IsLabel(a, "3-4 حصص") then Moderate
    else Good
  }

  /** The two nutrition buckets differ on the same two labels as the two
      nutrition penalties, and agree on every other answer. */
  lemma NutritionFeedbackReadingsDiffer(a: Option<Answer>)
    ensures a == Some(Str("3-4 حصص")) ==> NutritionFeedbackAsWritten(a) == Good && NutritionFeedback(a) == Moderate
    ensures a == Some(Str("3-4 حصة")) ==> NutritionFeedbackAsWritten(a) == Moderate && NutritionFeedback(a) == Good
    ensures a != Some(Str("3-4 حصص")) && a != Some(Str("3-4 حصة")) ==> NutritionFeedbackAsWritten(a) == NutritionFeedback(a)
  {
  }

  /** The nutrition bucket under a reading. */
  function NutritionFeedbackIn(r: Reading, a: Option<Answer>): (l: Level)
    ensures r == AsWritten ==> l == NutritionFeedbackAsWritten(a)
    ensures r == Corrected ==> l == NutritionFeedback(a)
    ensures l == Good <==> NutritionPenaltyIn(r, a) == 0
  {
    match r
    case AsWritten => NutritionFeedbackAsWritten(a)
    case Corrected => NutritionFeedback(a)
  }

  /** Position of a note in the fixed reporting order. */
  function Rank(n: LifestyleNote): nat
  {
    match n
    case SmokingNote => 0
    case StressNote => 1
    case WaterNote => 2
    case FastFoodNote => 3
    case CoffeeNote => 4
    case EnergyDrinksNote => 5
    case GoodLifestyle => 6
  }

  /** The notes appear in strictly increasing fixed order. */
  predicate InOrder(notes: seq<LifestyleNote>)
  {
    forall i, j :: 0 <= i < j < |notes| ==> Rank(notes[i]) < Rank(notes[j])
  }

  /** The concern note at position `r` of the fixed order. */
  function NoteOfRank(r: nat): (n: LifestyleNote)
    requires r < 6
    ensures Rank(n) == r && n != GoodLifestyle
  {
    [SmokingNote, StressNote, WaterNote, FastFoodNote, CoffeeNote, EnergyDrinksNote][r]
  }

  /** The notes pushed for concerns `k..5`, in order: concern r pushes its
      note exactly when `concerns[r]` holds. */
  function Pushed(concerns: seq<bool>, k: nat): (notes: seq<LifestyleNote>)
    requires k <= |concerns| == 6
    decreases 6 - k
    ensures |notes| <= 6 - k
    ensures forall i :: 0 <= i < |notes| ==> k <= Rank(notes[i]) < 6
    ensures InOrder(notes)
    ensures forall r :: k <= r < 6 ==> (NoteOfRank(r) in notes <==> concerns[r])
  {
    if k == 6 then []
    else
      var rest := Pushed(concerns, k + 1);
      if concerns[k] then [NoteOfRank(k)] + rest else rest
  }

  /** The lifestyle list for the six concern flags: the pushed notes, or
      the all-clear note alone when nothing was pushed. */
  function Report(concerns: seq<bool>): (notes: seq<LifestyleNote>)
    requires |concerns| == 6
    ensures 1 <= |notes| <= 6
    ensures notes == [GoodLifestyle] || (GoodLifestyle !in notes && InOrder(notes))
    ensures notes == [GoodLifestyle] <==> forall r :: 0 <= r < 6 ==> !concerns[r]
    ensures forall r :: 0 <= r < 6 ==> (NoteOfRank(r) in notes <==> concerns[r])
  {
    var flagged := Pushed(concerns, 0);
    if |flagged| > 0 then flagged
    else
      assert forall r :: 0 <= r < 6 ==> !concerns[r] by {
        forall r | 0 <= r < 6 ensures !concerns[r] {
          assert NoteOfRank(r) !in flagged;
        }
      }
      [GoodLifestyle]
  }

  /** The smoking concern: regular and occasional smokers, exactly those the score penalises. */
  function SmokingConcern(a: Option<Answer>): (c: bool)
    ensures ByPosition(Smoking, [false, true, true, false], false, a, c)
  {
    IsLabel(a, "Regularly") || IsLabel(a, "بانتظام") || IsLabel(a, "Occasionally") || IsLabel(a, "أحياناً")
  }

  /** The stress concern: high and very high stress, exactly those the score penalises. */
  function StressConcern(a: Option<Answer>): (c: bool)
    ensures ByPosition(Stress, [false, false, true, true], false, a, c)
  {
    IsLabel(a, "High") || IsLabel(a, "Very High") || IsLabel(a, "مرتفع") || IsLabel(a, "مرتفع جداً")
  }

  /** The water concern: less than a litre a day, exactly what the score penalises. */
  function WaterConcern(a: Option<Answer>): (c: bool)
    ensures ByPosition(Water, [true, false, false, false], false, a, c)
  {
    IsLabel(a, "Less than 1 liter") || IsLabel(a, "أقل من 1 لتر")
  }

  /** The fast-food concern: weekly or more, exactly the two tiers the score penalises. */
  function FastFoodConcern(a: Option<Answer>): (c: bool)
    ensures ByPosition(FastFood, [false, false, true, true], false, a, c)
  {
    IsLabel(a, "1-2 times per week") || IsLabel(a, "3 or more times per week") ||
    IsLabel(a, "1-2 مرة في الأسبوع") || IsLabel(a, "3 مرات أو أكثر في الأسبوع")
  }

  /** The coffee concern: four cups or more, exactly what the score penalises. */
  function CoffeeConcern(a: Option<Answer>): (c: bool)
    ensures ByPosition(Coffee, [false, false, false, true], false, a, c)
  {
    IsLabel(a, "4 or more cups") || IsLabel(a, "4 فناجين أو أكثر")
  }

  /** The energy-drink concern: weekly or daily, exactly the two tiers the score penalises. */
  function EnergyDrinksConcern(a: Option<Answer>): (c: bool)
    ensures ByPosition(EnergyDrinks, [false, false, true, true], false, a, c)
  {
    IsLabel(a, "Weekly (1–3 times per week)") || IsLabel(a, "Daily or almost daily") ||
    IsLabel(a, "أسبوعياً (1-3 مرات في الأسبوع)") || IsLabel(a, "يومياً أو تقريباً يومياً")
  }

  /** The six concern flags of an answer set, in reporting order. */
  function Concerns(answers: AnswerSet): (c: seq<bool>)
    ensures |c| == 6
  {
    [SmokingConcern(Get(answers, Smoking.id)),
     StressConcern(Get(answers, Stress.id)),
     WaterConcern(Get(answers, Water.id)),
     FastFoodConcern(Get(answers, FastFood.id)),
     CoffeeConcern(Get(answers, Coffee.id)),
     EnergyDrinksConcern(Get(answers, EnergyDrinks.id))]
  }

  /** `getLifestyleFeedback`: one note per concerning habit, in the fixed
      order smoking, stress, water, fast food, coffee, energy drinks, or the
      single all-clear note when no habit is concerning. */
  function LifestyleFeedback(answers: AnswerSet): (notes: seq<LifestyleNote>)
    ensures 1 <= |notes| <= 6
    ensures notes == [GoodLifestyle] || (GoodLifestyle !in notes && InOrder(notes))
    ensures notes == [GoodLifestyle] <==> forall r :: 0 <= r < 6 ==> !Concerns(answers)[r]
    ensures forall r :: 0 <= r < 6 ==> (NoteOfRank(r) in notes <==> Concerns(answers)[r])
  {
    Report(Concerns(answers))
  }

  /** The smoking flag is raised exactly when that habit costs points. */
  lemma SmokingFlagIsPenalty(answers: AnswerSet)
    ensures Concerns(answers)[0] <==> SmokingPenalty(Get(answers, Smoking.id)) > 0
  {
    assert Concerns(answers)[0] == SmokingConcern(Get(answers, Smoking.id));
  }

  /** The stress flag is raised exactly when that habit costs points. */
  lemma StressFlagIsPenalty(answers: AnswerSet)
    ensures Concerns(answers)[1] <==> StressPenalty(Get(answers, Stress.id)) > 0
  {
    assert Concerns(answers)[1] == StressConcern(Get(answers, Stress.id));
  }

  /** The water flag is raised exactly when that habit costs points. */
  lemma WaterFlagIsPenalty(answers: AnswerSet)
    ensures Concerns(answers)[2] <==> WaterPenalty(Get(answers, Water.id)) > 0
  {
    assert Concerns(answers)[2] == WaterConcern(Get(answers, Water.id));
  }

  /** The fast-food flag is raised exactly when that habit costs points. */
  lemma FastFoodFlagIsPenalty(answers: AnswerSet)
    ensures Concerns(answers)[3] <==> FastFoodPenalty(Get(answers, FastFood.id)) > 0
  {
    assert Concerns(answers)[3] == FastFoodConcern(Get(answers, FastFood.id));
  }

  /** The coffee flag is raised exactly when that habit costs points. */
  lemma CoffeeFlagIsPenalty(answers: AnswerSet)
    ensures Concerns(answers)[4] <==> CoffeePenalty(Get(answers, Coffee.id)) > 0
  {
    assert Concerns(answers)[4] == CoffeeConcern(Get(answers, Coffee.id));
  }

  /** The energy-drink flag is raised exactly when that habit costs points. */
  lemma EnergyDrinksFlagIsPenalty(answers: AnswerSet)
    ensures Concerns(answers)[5] <==> EnergyDrinksPenalty(Get(answers, EnergyDrinks.id)) > 0
  {
    assert Concerns(answers)[5] == EnergyDrinksConcern(Get(answers, EnergyDrinks.id));
  }

  /** A lifestyle note is reported exactly when its habit costs points in
      the score, and the all-clear note exactly when no habit does. */
  lemma LifestylePenaltiesAreReported(answers: AnswerSet)
    ensures var notes := LifestyleFeedback(answers);
      && (SmokingNote in notes <==> SmokingPenalty(Get(answers, Smoking.id)) > 0)
      && (StressNote in notes <==> StressPenalty(Get(answers, Stress.id)) > 0)
      && (WaterNote in notes <==> WaterPenalty(Get(answers, Water.id)) > 0)
      && (FastFoodNote in notes <==> FastFoodPenalty(Get(answers, FastFood.id)) > 0)
      && (CoffeeNote in notes <==> CoffeePenalty(Get(answers, Coffee.id)) > 0)
      && (EnergyDrinksNote in notes <==> EnergyDrinksPenalty(Get(answers, EnergyDrinks.id)) > 0)
  {
    SmokingFlagIsPenalty(answers);
    StressFlagIsPenalty(answers);
    WaterFlagIsPenalty(answers);
    FastFoodFlagIsPenalty(answers);
    CoffeeFlagIsPenalty(answers);
    EnergyDrinksFlagIsPenalty(answers);
    assert NoteOfRank(0) == SmokingNote && NoteOfRank(1) == StressNote && NoteOfRank(2) == WaterNote;
    assert NoteOfRank(3) == FastFoodNote && NoteOfRank(4) == CoffeeNote && NoteOfRank(5) == EnergyDrinksNote;
  }

  /** The all-clear note stands alone exactly when no lifestyle habit costs points. */
  lemma AllClearIffNoLifestylePenalty(answers: AnswerSet, bmi: real, r: Reading)
    ensures var p := PenaltiesOf(answers, bmi, r);
      LifestyleFeedback(answers) == [GoodLifestyle] <==> p.smoking + p.stress + p.water + p.fastFood + p.coffee + p.energyDrinks == 0
  {
    SmokingFlagIsPenalty(answers);
    StressFlagIsPenalty(answers);
    WaterFlagIsPenalty(answers);
    FastFoodFlagIsPenalty(answers);
    CoffeeFlagIsPenalty(answers);
    EnergyDrinksFlagIsPenalty(answers);
    var p := PenaltiesOf(answers, bmi, r);
    assert p.smoking == SmokingPenalty(Get(answers, Smoking.id));
    assert p.stress == StressPenalty(Get(answers, Stress.id));
    assert p.water == WaterPenalty(Get(answers, Water.id));
    assert p.fastFood == FastFoodPenalty(Get(answers, FastFood.id));
    assert p.coffee == CoffeePenalty(Get(answers, Coffee.id));
    assert p.energyDrinks == EnergyDrinksPenalty(Get(answers, EnergyDrinks.id));
  }

  /** `getFeedbackForResults` (under `AsWritten`) on a stored BMI and answer
      set: every bucket reads as healthy exactly when its factor costs
      nothing in the score of the same reading, except sleep, whose buckets
      use their own thresholds. */
  function FeedbackFor(bmi: real, answers: AnswerSet, r: Reading): (b: Bundle)
    ensures b.bmi == Normal <==> BmiPenalty(bmi) == 0
    ensures b.activity == Good <==> ActivityPenalty(Get(answers, ActivityDays.id)) == 0
    ensures b.nutrition == Good <==> NutritionPenaltyIn(r, Get(answers, NutritionServings.id)) == 0
    ensures b.sleep == Moderate ==> SleepPenalty(NumberOf(Get(answers, SleepHours.id))) == 0
    ensures b.lifestyle == [GoodLifestyle] <==> forall k :: 0 <= k < 6 ==> !Concerns(answers)[k]
    ensures b.bmi == BmiFeedback(bmi) && b.sleep == SleepFeedback(NumberOf(Get(answers, SleepHours.id)))
    ensures b.activity == ActivityFeedback(Get(answers, ActivityDays.id))
    ensures b.nutrition == NutritionFeedbackIn(r, Get(answers, NutritionServings.id))
    ensures b.lifestyle == LifestyleFeedback(answers)
  {
    Bundle(
      BmiFeedback(bmi),
      SleepFeedback(NumberOf(Get(answers, SleepHours.id))),
      ActivityFeedback(Get(answers, ActivityDays.id)),
      NutritionFeedbackIn(r, Get(answers, NutritionServings.id)),
      LifestyleFeedback(answers))
  }

  /** The feedback as written and the corrected feedback agree on every
      bucket but nutrition, which differs exactly on the catalog's Arabic
      3-4 option and on the label the source tests in its place. */
  lemma {:induction false} FeedbackReadingsDiffer(bmi: real, answers: AnswerSet)
    ensures FeedbackFor(bmi, answers, AsWritten).(nutrition := Good) == FeedbackFor(bmi, answers, Corrected).(nutrition := Good)
    ensures var a := Get(answers, NutritionServings.id);
      var same := FeedbackFor(bmi, answers, AsWritten).nutrition == FeedbackFor(bmi, answers, Corrected).nutrition;
      same <==> a != Some(Str("3-4 حصص")) && a != Some(Str("3-4 حصة"))
  {
    NutritionFeedbackReadingsDiffer(Get(answers, NutritionServings.id));
  }
}
