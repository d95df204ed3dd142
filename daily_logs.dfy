/**
 * The daily check-in record as the routes store it. The seven multiple-choice answers are
 * kept as JSON text (or null), the ratings are optional integers.
 */
module DailyLogs {
  import opened Wrappers

  /** The seven list-valued answers, in one record. */
  datatype Lists<T> = Lists(
    emotionCheckboxes: T, sleepDifficulties: T, mealRegularity: T,
    selfCareActivities: T, socialInteractions: T, stressors: T, copingStrategies: T)

  function MapLists<A, B>(l: Lists<A>, f: A -> B): (r: Lists<B>)
    ensures r.emotionCheckboxes == f(l.emotionCheckboxes) && r.sleepDifficulties == f(l.sleepDifficulties)
    ensures r.mealRegularity == f(l.mealRegularity) && r.selfCareActivities == f(l.selfCareActivities)
    ensures r.socialInteractions == f(l.socialInteractions) && r.stressors == f(l.stressors)
    ensures r.copingStrategies == f(l.copingStrategies)
  {
    Lists(f(l.emotionCheckboxes), f(l.sleepDifficulties), f(l.mealRegularity),
          f(l.selfCareActivities), f(l.socialInteractions), f(l.stressors), f(l.copingStrategies))
  }

  /**
   * A stored log; `date` is the calendar day the mark-taken upsert keys on, `createdAt` the
   * instant of creation the other routes window on.
   */
  datatype DailyLog = DailyLog(
    id: string, userId: string, date: int, createdAt: int,
    moodRating: Option<int>, sleepQuality: Option<int>, energyLevel: Option<int>,
    medicationTaken: Option<bool>, notes: Option<string>, lists: Lists<Option<string>>)

  const NO_LISTS: Lists<Option<string>> := Lists(None, None, None, None, None, None, None)
}
