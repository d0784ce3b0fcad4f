/** Generated identifiers, shared by the meal log and the testimonials. */
module Ids {

  /** An identifier made from the creation instant and a random number
      (`new Date().toISOString() + Math.random()`). */
  datatype GeneratedId = GeneratedId(createdAt: int, random: real)
}
