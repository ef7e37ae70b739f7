# Bilingual health questionnaire engine, in Dafny

This project models the logic core of a bilingual (English/Arabic) health
self-assessment web application:

- the fourteen-question catalog, with option labels in both languages and
  numeric validators (`Catalog`);
- the Arabic-to-English answer translation table (`Translations`);
- the scoring engine: a BMI from height and weight, and a score that starts at
  100 and loses one tiered penalty per factor, tiers being chosen by matching
  literal English or Arabic option labels (`Scoring`);
- the feedback deriver, which turns the stored answers into bucket tokens for
  BMI, sleep, activity and nutrition and an ordered list of lifestyle notes
  (`Feedback`);
- the submission client without its transport: answer canonicalisation to
  English for Arabic sessions, the language gate, and the error message of a
  failed request (`Api`);
- the App component's session handlers: answering, Next, Previous, restart, and
  the idle → pending → success|error submission sequence (`Session`);
- the quiz screen's progress bar, Previous visibility and Next/Finish button,
  and sessions as sequences of events (`Quiz`).

An answer is `Num(x)`, `NaN` or `Str(label)`. A missing key stands for
`undefined`. Every comparison with `NaN` is false. Message texts are
represented by bucket tokens. The transport outcome (`Delivery`) is an input.

The scorer and the feedback take a `Scoring.Reading`. `AsWritten` is the
source as it stands: the label it tests for the Arabic 3-4 nutrition tier is
one the catalog never offers (see Findings). `Corrected` uses the catalog's
label instead. The payload, the score sent and the results screen use
`AsWritten`. The lemmas `Scoring.ScoreReadingsDiffer` and
`Feedback.FeedbackReadingsDiffer` relate the two readings for every input.

## Model

| member | source | states |
|---|---|---|
| `Answers.NumberOf` | src/App.tsx:122-123 | `Number(x)` of a stored answer is a number exactly when the answer is one; NaN, strings and missing answers give no number, so every comparison on them fails |
| `Catalog.Questions` | src/data/questions.ts:20-205 | the catalog has 14 questions in display order, their ids are the listed ids, and it ends with the energy-drink question |
| `Catalog.IdsDistinct` | src/data/questions.ts:20-205 | no two catalog questions share an id |
| `Catalog.CatalogWellFormed` | src/data/questions.ts:20-205 | every question is required. Select questions offer 2 (gender) or 4 options per language, paired by position, distinct within a language, with Arabic script in every Arabic label and in no English one. Only the three number questions carry a validator, and it matches their `min`/`max` |
| `Catalog.SameOptionCount` | src/data/questions.ts:23-30 | each catalog question offers as many English options as Arabic ones |
| `Catalog.ValidatorRanges` | src/data/questions.ts:35-78 | the validators accept exactly [10,120] years, [100,300] cm and [30,400] kg. The sleep slider spans [2,12] in steps of 0.5 and has no validator |
| `Translations.Lookup` | src/utils/answerTranslations.ts:1-58 | every key is in Arabic script and no value is, so no value is itself a key |
| `Translations.CatalogPairing` | src/utils/answerTranslations.ts:1-58 | every Arabic option of every catalog question is a key, mapped to the English option at the same position |
| `Translations.EntriesFromCatalog` | src/utils/answerTranslations.ts:3-57 | conversely, every entry of the table is such a positional pair, so every value is an English option of some question |
| `Scoring.CalculateBmi` | src/App.tsx:121-129 | the BMI is 0 unless height and weight are both positive numbers, and then it is positive and equals weight / (height/100)² |
| `Scoring.BmiPenalty` | src/App.tsx:133-134 | 20 outside [18.5, 30), 0 exactly on [18.5, 25), 10 exactly on [25, 30) |
| `Scoring.SleepPenalty` | src/App.tsx:136-138 | 15 outside [5,10], 0 exactly on [6,9] or when there is no number (NaN), 7 exactly on the rest of [5,10] |
| `Scoring.ActivityPenalty` | src/App.tsx:140-143 | an activity option in either language costs 15/10/5/0 by its position; any other answer costs 0 |
| `Scoring.NutritionPenaltyAsWritten` | src/App.tsx:145-148 | the nutrition tiers as written, which give the 3-4 tier to the label "3-4 حصة" |
| `Scoring.NutritionAsWrittenMisses34` | src/App.tsx:145-148 | as written, the catalog's English 3-4 option costs 5 but its Arabic counterpart costs 0 |
| `Scoring.NutritionPenalty` | src/App.tsx:145-148 | corrected nutrition tiers: an option in either language costs 15/10/5/0 by its position; any other answer costs 0 |
| `Scoring.NutritionReadingsDiffer` | src/App.tsx:145-148 | for every answer, the as-written and corrected nutrition penalties agree, except on "3-4 حصص" (as written 0, corrected 5) and on "3-4 حصة" (as written 5, corrected 0) |
| `Scoring.NutritionPenaltyIn` | src/App.tsx:145-148 | the nutrition penalty of a reading is at most 15: the as-written tiers under `AsWritten`, the corrected ones under `Corrected` |
| `Scoring.SmokingPenalty` | src/App.tsx:150-151 | smoking options cost 0/5/10/0 by position, in either language |
| `Scoring.StressPenalty` | src/App.tsx:153 | stress options cost 0/0/5/5 by position, in either language |
| `Scoring.WaterPenalty` | src/App.tsx:154 | water options cost 5/0/0/0 by position, in either language |
| `Scoring.FastFoodPenalty` | src/App.tsx:156-158 | fast-food options cost 0/0/2/5 by position, in either language |
| `Scoring.CoffeePenalty` | src/App.tsx:160 | coffee options cost 0/0/0/5 by position, in either language |
| `Scoring.EnergyDrinksPenalty` | src/App.tsx:162-164 | energy-drink options cost 0/0/2/5 by position, in either language |
| `Scoring.PenaltiesOf` | src/App.tsx:131-164 | under either reading, each of the ten penalties is at most its factor's maximum, and the maxima sum to exactly 100. `AsWritten` is the source's computation |
| `Scoring.CalculateScore` | src/App.tsx:131-166 | the score lies in [0,100] and is 100 minus the penalties of the same reading, so the floor at 0 never changes it. `AsWritten` is the source's `calculateScore` |
| `Scoring.ScoreReadingsDiffer` | src/App.tsx:131-166 | the as-written and corrected penalties differ only in nutrition. The two scores are equal, except 5 higher as written on "3-4 حصص" and 5 lower on "3-4 حصة" |
| `Scoring.HealthyScenario` | src/App.tsx:121-166 | 170 cm, 70 kg and healthy habits give a BMI of about 24.22 and, as written, a score of 100 |
| `Scoring.HealthyTiersCostNothing` | src/App.tsx:140-164 | the healthiest English option of each factor costs nothing |
| `Scoring.WorstScenario` | src/App.tsx:121-166 | 160 cm, 45 kg and the worst tier of every factor take every maximum and, as written, score 0 |
| `Scoring.MissingMeasurementsCostTwenty` | src/App.tsx:121-134 | a missing height or weight gives BMI 0, which takes the full BMI penalty of 20 |
| `Scoring.ValidMeasurementsGivePositiveBmi` | src/data/questions.ts:46-67 | a height and a weight that pass their validators give a positive BMI |
| `Feedback.BmiFeedback` | src/App.tsx:270-275 | underweight or obese exactly when the BMI penalty is 20, overweight exactly when it is 10, normal exactly when it is 0 |
| `Feedback.SleepFeedback` | src/App.tsx:276-281 | poor exactly below 6 hours, good exactly from 7 hours or when there is no number (NaN), moderate in between. Poor sleep is always penalised and moderate sleep never is; good sleep is penalised only above 9 hours |
| `Feedback.OversleepReadsGood` | src/App.tsx:276-281 | 11 hours of sleep read as good but cost the full 15 points |
| `Feedback.ActivityFeedback` | src/App.tsx:282-288 | only the lowest activity option is poor, the middle two are moderate, and anything else is good. Poor and good match the penalty's 15 and 0 |
| `Feedback.NutritionFeedbackAsWritten` | src/App.tsx:289-295 | the nutrition bucket as written agrees with the scorer as written |
| `Feedback.NutritionFeedbackAsWrittenMisses34` | src/App.tsx:289-295 | as written, the English 3-4 option reads moderate and the Arabic one reads good |
| `Feedback.NutritionFeedback` | src/App.tsx:289-295 | corrected nutrition bucket: poor/moderate/moderate/good by option position in either language, in line with the corrected penalty |
| `Feedback.NutritionFeedbackReadingsDiffer` | src/App.tsx:289-295 | for every answer, the as-written and corrected nutrition buckets agree, except on "3-4 حصص" (good against moderate) and on "3-4 حصة" (moderate against good) |
| `Feedback.NutritionFeedbackIn` | src/App.tsx:289-295 | the nutrition bucket of a reading is good exactly when that reading's nutrition penalty is 0 |
| `Feedback.Pushed` | src/App.tsx:296-319 | the notes pushed for the flagged concerns come in the fixed order, and a note is present exactly when its concern is flagged |
| `Feedback.Report` | src/App.tsx:320 | the list is exactly the all-clear note when nothing is flagged. Otherwise it is the ordered concern notes without the all-clear. It holds between 1 and 6 entries |
| `Feedback.SmokingConcern` | src/App.tsx:298-301 | the smoking option at position 1 or 2, in either language, is flagged; nothing else is |
| `Feedback.SmokingFlagIsPenalty` | src/App.tsx:298-301 | the lifestyle flag for regular and occasional smokers is raised exactly when the score charges that habit a penalty |
| `Feedback.StressConcern` | src/App.tsx:302-305 | the stress option at position 2 or 3, in either language, is flagged; nothing else is |
| `Feedback.StressFlagIsPenalty` | src/App.tsx:302-305 | the lifestyle flag for high and very high stress is raised exactly when the score charges that habit a penalty |
| `Feedback.WaterConcern` | src/App.tsx:306-308 | the water option at position 0, in either language, is flagged; nothing else is |
| `Feedback.WaterFlagIsPenalty` | src/App.tsx:306-308 | the lifestyle flag for under 1 litre of water is raised exactly when the score charges that habit a penalty |
| `Feedback.FastFoodConcern` | src/App.tsx:309-312 | the fast-food option at position 2 or 3, in either language, is flagged; nothing else is |
| `Feedback.FastFoodFlagIsPenalty` | src/App.tsx:309-312 | the lifestyle flag for weekly fast food is raised exactly when the score charges that habit a penalty |
| `Feedback.CoffeeConcern` | src/App.tsx:313-315 | the coffee option at position 3, in either language, is flagged; nothing else is |
| `Feedback.CoffeeFlagIsPenalty` | src/App.tsx:313-315 | the lifestyle flag for four or more cups is raised exactly when the score charges that habit a penalty |
| `Feedback.EnergyDrinksConcern` | src/App.tsx:316-319 | the energy-drink option at position 2 or 3, in either language, is flagged; nothing else is |
| `Feedback.EnergyDrinksFlagIsPenalty` | src/App.tsx:316-319 | the lifestyle flag for weekly or daily energy drinks is raised exactly when the score charges that habit a penalty |
| `Feedback.LifestyleFeedback` | src/App.tsx:296-321 | the lifestyle list is never empty. It is either the all-clear note alone, or up to six concern notes in the fixed order |
| `Feedback.LifestylePenaltiesAreReported` | src/App.tsx:296-320 | a lifestyle note appears exactly when its habit costs points in the score |
| `Feedback.AllClearIffNoLifestylePenalty` | src/App.tsx:296-320 | under either reading, the all-clear note stands alone exactly when the six lifestyle penalties are all zero |
| `Feedback.FeedbackFor` | src/App.tsx:264-330 | each bucket is its helper's result: the BMI, sleep, activity and lifestyle buckets are the same under both readings, and the nutrition bucket follows the reading. Under `AsWritten` this is the source's `getFeedbackForResults`. Each bucket reads healthy exactly when its factor costs nothing in the score of the same reading, except sleep |
| `Feedback.FeedbackReadingsDiffer` | src/App.tsx:264-330 | the as-written and corrected bundles agree on every bucket but nutrition. Nutrition differs exactly when the answer is "3-4 حصص" or "3-4 حصة" |
| `Api.TranslateLabel` | src/services/api.ts:56 | the result is never a table key. A label that is not a key is kept. A changed label is a positional catalog pair |
| `Api.TranslateAnswer` | src/services/api.ts:54-59 | a string becomes the translation of its label, which is canonical; numbers and NaN pass through unchanged |
| `Api.TranslateAnswers` | src/services/api.ts:51-62 | same keys, each answer translated, and no stored string left that is a key |
| `Api.TranslateAnswersToEnglish` | src/services/api.ts:51-62 | the key-by-key loop yields a map with exactly the input's keys, numbers copied and strings translated |
| `Api.TranslateLabelIdempotent` | src/utils/answerTranslations.ts:2-57 | translating a translated label changes nothing |
| `Api.TranslateAnswersIdempotent` | src/services/api.ts:51-62 | translating twice is translating once |
| `Api.OptionsTranslatePositionally` | src/utils/answerTranslations.ts:1-58 | a catalog question's Arabic option i becomes its English option i, and English options are kept |
| `Api.InjectiveWithinQuestion` | src/utils/answerTranslations.ts:1-58 | two different Arabic options of one question never translate to the same label |
| `Api.NotInjectiveAcrossQuestions` | src/utils/answerTranslations.ts:19-49 | across questions, the conditions and coffee "none" options both become "None", and smoking and energy drinks share one key |
| `Api.Transmitted` | src/services/api.ts:69-74 | an English payload is sent unchanged. An Arabic one is sent as a copy in which only the answers change: each is translated under the same key, so the answers are canonical |
| `Api.EnglishPayloadIsCanonical` | src/services/api.ts:69-74 | an English session with Latin-script answers already sends canonical labels |
| `Api.OfferedTranslatesPositionally` | src/services/api.ts:51-62 | an option of a catalog question, in either language, translates to the English option at its position |
| `Api.ActivitySurvivesTranslation` | src/App.tsx:140-143 | translating an activity option keeps its penalty |
| `Api.ActivityFeedbackSurvivesTranslation` | src/App.tsx:282-288 | translating an activity option keeps its feedback bucket |
| `Api.NutritionSurvivesTranslation` | src/App.tsx:145-148 | translating a nutrition option keeps its corrected penalty |
| `Api.NutritionFeedbackSurvivesTranslation` | src/App.tsx:289-295 | translating a nutrition option keeps its corrected feedback bucket |
| `Api.SmokingSurvivesTranslation` | src/App.tsx:150-151 | translating a smoking option keeps its penalty |
| `Api.StressSurvivesTranslation` | src/App.tsx:153 | translating a stress option keeps its penalty |
| `Api.WaterSurvivesTranslation` | src/App.tsx:154 | translating a water option keeps its penalty |
| `Api.FastFoodSurvivesTranslation` | src/App.tsx:156-158 | translating a fast-food option keeps its penalty |
| `Api.CoffeeSurvivesTranslation` | src/App.tsx:160 | translating a coffee option keeps its penalty |
| `Api.EnergyDrinksSurvivesTranslation` | src/App.tsx:162-164 | translating an energy-drink option keeps its penalty |
| `Api.NutritionAsWrittenChangesUnderTranslation` | src/App.tsx:148 | as written, the Arabic 3-4 nutrition option costs 0 before translation and 5 after it |
| `Api.NutritionLabelsApart` | src/utils/answerTranslations.ts:1-58 | a nutrition option is never "3-4 حصة"; its translation is neither "3-4 حصص" nor "3-4 حصة"; "3-4 حصص" translates to "3-4 servings" |
| `Api.NutritionAsWrittenUnderTranslation` | src/App.tsx:145-148 | a nutrition option keeps its as-written penalty under translation, except "3-4 حصص", which goes from 0 to 5 |
| `Api.NutritionFeedbackAsWrittenUnderTranslation` | src/App.tsx:289-295 | a nutrition option keeps its as-written bucket under translation, except "3-4 حصص", which goes from good to moderate |
| `Api.BmiSurvivesTranslation` | src/services/api.ts:57-59 | translation keeps the BMI, since height and weight are numbers |
| `Api.PenaltiesSurviveTranslation` | src/App.tsx:131-164 | for answers the select inputs can store, translation keeps all ten corrected penalties (for the as-written nutrition tier see `Api.ScoreAsWrittenUnderTranslation`) |
| `Api.ScoreSurvivesTranslation` | src/services/api.ts:69-74 | the answers the server receives give the same BMI, and the same corrected score, as the answers the session kept |
| `Api.ScoreAsWrittenUnderTranslation` | src/App.tsx:131-166 | for answers the select inputs can store, the source's scorer gives the translated answers the same score as the kept ones, except 5 points less when nutrition is "3-4 حصص" |
| `Api.FeedbackSurvivesTranslation` | src/App.tsx:264-330 | the corrected feedback of the translated answers equals that of the kept answers |
| `Api.FeedbackAsWrittenUnderTranslation` | src/App.tsx:264-330 | for answers the select inputs can store, the source's feedback reads the translated answers as it reads the kept ones. The exception is nutrition "3-4 حصص", which reads good kept and moderate translated |
| `Api.ConcernsSurviveTranslation` | src/App.tsx:296-319 | the six lifestyle flags are the same before and after translation |
| `Api.NatToString` | src/services/api.ts:100 | the status prints as a non-empty string of decimal digits without a leading zero |
| `Api.NatToStringRoundTrip` | src/services/api.ts:100 | the printed status reads back as the status |
| `Api.StatusText` | src/services/api.ts:100 | "Unknown" exactly when there is no status or it is 0; otherwise the digits of the status |
| `Api.ThrownMessage` | src/services/api.ts:99-109 | an HTTP failure throws the server's message, else the client's message, else "Server error: " and the status text, so never an empty message. Any other error is rethrown unchanged |
| `Session.Initial` | src/App.tsx:32-44 | a fresh session shows the welcome screen at question 0, with no answers, status idle and nothing stored |
| `Session.StartQuiz` | src/App.tsx:109-115 | starting records the name, leaves the welcome screen, and changes nothing else |
| `Session.HandleAnswer` | src/App.tsx:117-119 | the given key now holds the answer, and every other key and field is unchanged |
| `Session.HandleNext` | src/App.tsx:216-243 | a blank required answer blocks first, then a number the validator rejects (NaN included). Otherwise the index advances exactly when it is not the last. Only the index changes, and it stays in range |
| `Session.HandlePrevious` | src/App.tsx:245-249 | steps back one, except at 0 where it does nothing; only the index changes |
| `Session.PreviousUndoesNext` | src/App.tsx:236-249 | Previous undoes a Next that advanced |
| `Session.NextRedoesPrevious` | src/App.tsx:216-249 | Next redoes a Previous when the question stepped back to is answered acceptably |
| `Session.OnlyNumbersAreValidated` | src/App.tsx:226-234 | the validator check never blocks a select or slider question |
| `Session.AgeGate` | src/App.tsx:216-234 | on the age question a number advances exactly when it lies in [10,120]. NaN is refused as invalid, and a blank as missing |
| `Session.HandleRestart` | src/App.tsx:251-262 | restart yields a fresh session that keeps only the language and theme flags |
| `Session.BuildPayload` | src/App.tsx:173-199 | the payload carries the stored answers untranslated, their BMI, the as-written score of the source (in [0,100]), the session's language, and no name when the name is empty |
| `Session.ErrorText` | src/App.tsx:208-213 | the message shown on failure is never empty, and it is the thrown message when that is not empty |
| `Session.BeginSubmit` | src/App.tsx:169-201 | submission first sets pending, clears the error and stores the payload, changing nothing else |
| `Session.Settle` | src/App.tsx:203-213 | success records the assessment id and failure a non-empty message. Both show the results, and exactly one of success or error results |
| `Session.PrepareAndSubmit` | src/App.tsx:169-214 | the status goes pending, then to exactly one of success or error, with the results shown and the same payload stored throughout |
| `Session.ResultsFeedback` | src/App.tsx:264-268 | no feedback before a payload is stored. Afterwards it is the as-written feedback of the stored BMI and answers, bucket by bucket |
| `Session.ResultsUseKeptLabels` | src/App.tsx:201-204 | the results read the untranslated labels the session kept. Their feedback is that of the labels sent, except in an Arabic session answering the Arabic 3-4 nutrition option: on screen it reads good, and the English label sent would read moderate |
| `Quiz.Progress` | src/components/quiz/QuizContainer.tsx:36 | progress lies in (0,100] and reaches 100 only on the last question |
| `Quiz.ProgressIncreases` | src/components/quiz/QuizContainer.tsx:36 | progress strictly increases with the index |
| `Quiz.PreviousVisibleIffItMoves` | src/components/quiz/QuizContainer.tsx:193 | Previous is visible exactly when pressing it would move |
| `Quiz.NextClickDispatch` | src/components/quiz/QuizContainer.tsx:121-132 | the button calls submit exactly on the last question and Next everywhere else |
| `Quiz.ClickNext` | src/components/quiz/QuizContainer.tsx:121-132 | a disabled button does nothing. Finish starts a submission and keeps the button disabled. Any other press is Next |
| `Quiz.LastQuestionSkipsValidation` | src/components/quiz/QuizContainer.tsx:121-132 | on the last question Finish submits even a blank answer that Next would refuse |
| `Quiz.Step` | src/App.tsx:381-397 | each event acts only on the screen that shows it: Start on the welcome screen, answers and the Next/Previous buttons on the quiz, Restart on the results. The transport settles only a pending submission. Settling or restarting unmounts the quiz screen, so its submitting flag starts cleared |
| `Quiz.Launch` | src/App.tsx:32-44 | a session starts consistent, idle and not submitting |
| `Quiz.StepKeepsConsistent` | src/App.tsx:169-262 | each event keeps the index in range, keeps the button disabled exactly while pending, and follows idle → pending → success/error → idle. Only answering or restarting touches the answers |
| `Quiz.RunKeepsConsistent` | src/components/quiz/QuizContainer.tsx:119-132 | every reachable screen is consistent: one submission at most in flight, results only after a settled submission, and a message with every failure |
| `Quiz.NavigationKeepsAnswers` | src/App.tsx:216-249 | any run of Next and Previous presses leaves the answers unchanged |

## Left out

- Rendering, styling, theme and RTL handling: no logic beyond conditional markup.
- The consent dialog and the language and theme toggles; the saved flags enter as parameters of `Session.Initial`.
- The HTTP request, its timeouts and response parsing: the outcome enters as a `Delivery`.
- Device information and geolocation: external I/O that fails silently.
- `localStorage`, start and end times, duration and time zone: ambient I/O with no rule to state.
- Scoring.CalculateBmi: the BMI is exact; the source rounds it to two decimals with `toFixed(2)` before the thresholds apply, so a BMI just below 25 or 30 may change bands there.
- `Math.round` on the score: every penalty is an integer, so it never acts.
- `Number(string)` coercion: a string stored under a numeric question reads as NaN here, whereas JavaScript would parse a numeric string; the inputs only ever store numbers there.
- The message texts of the feedback and error tables: bucket tokens stand for them.
- Translations.Lookup: keys inherited from JavaScript's object prototype (`"constructor"` and the like) are not modelled as table entries.
- Api.ScoreSurvivesTranslation: stated for the corrected reading only, and for answer sets whose select answers are options of their own question, which is all the select inputs can store; it is not claimed for arbitrary strings. For the source's scorer the invariance fails on "3-4 حصص"; `Api.ScoreAsWrittenUnderTranslation` states exactly how.
- Api.PenaltiesSurviveTranslation: stated for the corrected reading only, under the same hypothesis; the as-written nutrition tier changes under translation on "3-4 حصص" (`Api.NutritionAsWrittenUnderTranslation`).
- Api.FeedbackSurvivesTranslation: stated for the corrected reading only, under the same hypothesis; for the source's feedback `Api.FeedbackAsWrittenUnderTranslation` states the one exception.
- Api.ScoreAsWrittenUnderTranslation: stated under the same hypothesis as the corrected invariance lemmas.
- A non-HTTP error rethrown by the client carries whatever message it had; `Api.ThrownMessage` keeps it unchanged, and `Session.ErrorText` supplies the fallback text when that message is empty.

## Findings

| source | as written | input that shows it | evidently intended | confidence | as-written member | corrected member |
|---|---|---|---|---|---|---|
| src/App.tsx:148 | the 3-4 nutrition tier matches the Arabic label "3-4 حصة", but the catalog offers "3-4 حصص" (src/data/questions.ts:101) | an Arabic session answering "3-4 حصص" loses 0 points, while the English "3-4 servings" loses 5 | the catalog's Arabic label "3-4 حصص" costs 5, like its English counterpart | high; not executed | `Scoring.NutritionAsWrittenMisses34` | `Scoring.NutritionPenalty` |
| src/App.tsx:293 | the nutrition feedback tests the same wrong label "3-4 حصة" | an Arabic session answering "3-4 حصص" reads "good" nutrition, while "3-4 servings" reads "moderate" | the Arabic 3-4 option reads "moderate" | high; not executed | `Feedback.NutritionFeedbackAsWrittenMisses34` | `Feedback.NutritionFeedback` |
