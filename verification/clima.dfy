/**
 * The simulated cold-weather rule of the backend: it is "cold" on Friday
 * evenings. The clock reading `datetime.now()` becomes two parameters, the
 * weekday (Monday = 0 … Sunday = 6, as `weekday()` numbers them) and the hour.
 */
module Clima {

  const Sexta := 4

  /** `is_frio()` for the given weekday and hour. */
  predicate IsFrio(weekday: int, hour: int) {
    weekday == Sexta && 18 <= hour <= 23
  }

  /**
   * Over a whole week of valid clock readings, the cold ones are exactly
   * Friday 18:00 through 23:00: six of the 7 × 24 hours.
   */
  lemma ColdHoursOfTheWeek()
    ensures (set d, h | 0 <= d < 7 && 0 <= h < 24 && IsFrio(d, h) :: (d, h))
         == {(Sexta, 18), (Sexta, 19), (Sexta, 20), (Sexta, 21), (Sexta, 22), (Sexta, 23)}
    ensures |set d, h | 0 <= d < 7 && 0 <= h < 24 && IsFrio(d, h) :: (d, h)| == 6
  {
    var cold := set d, h | 0 <= d < 7 && 0 <= h < 24 && IsFrio(d, h) :: (d, h);
    assert cold == {(4, 18), (4, 19), (4, 20), (4, 21), (4, 22), (4, 23)};
  }
}
