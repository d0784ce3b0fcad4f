/** The testimonials store: an append-only list of user testimonials kept in
    memory and written to browser storage on every append. */
module Testimonials {
  import opened Wrappers
  import opened Ids

  datatype Testimonial = Testimonial(
    id: GeneratedId, name: string, avatar: Option<string>, rating: int, text: string)

  /** What the feedback form hands to `addTestimonial`: a testimonial without id. */
  datatype TestimonialData = TestimonialData(
    name: string, avatar: Option<string>, rating: int, text: string)

  /** `Omit<Testimonial, 'id'>`. */
  function Details(t: Testimonial): TestimonialData {
    TestimonialData(t.name, t.avatar, t.rating, t.text)
  }

  /** `{ ...testimonialData, id }`: the supplied fields plus an id generated at `now`. */
  function NewTestimonial(data: TestimonialData, now: int, random: real): (t: Testimonial)
    ensures Details(t) == data
    ensures t.id == GeneratedId(now, random)
  {
    Testimonial(GeneratedId(now, random), data.name, data.avatar, data.rating, data.text)
  }

  /** What `localStorage.getItem('nutrisnap_testimonials')` holds. */
  datatype StoredTestimonials = Malformed | Parsed(testimonials: seq<Testimonial>)

  class TestimonialStore {
    var testimonials: seq<Testimonial>
    /** The storage item; `None` when nothing is stored under the key. */
    var stored: Option<StoredTestimonials>

    constructor(storage: Option<StoredTestimonials>)
      ensures testimonials == [] && stored == storage
    {
      testimonials := [];
      stored := storage;
    }

    /** The mount effect: a stored list replaces the in-memory one; a parse
        failure or an empty key leaves it as it is. */
    method Load()
      modifies this
      ensures stored == old(stored)
      ensures old(stored).Some? && old(stored).value.Parsed? ==> testimonials == old(stored).value.testimonials
      ensures old(stored).None? || old(stored).value.Malformed? ==> testimonials == old(testimonials)
    {
      match stored
      case Some(Parsed(ts)) => testimonials := ts;
      case _ =>
    }

    /** `addTestimonial`: appends one testimonial, then saves the whole list;
        a failed save does not undo the append. */
    method AddTestimonial(data: TestimonialData, now: int, random: real, saveSucceeds: bool)
      modifies this
      ensures testimonials == old(testimonials) + [NewTestimonial(data, now, random)]
      ensures |testimonials| == |old(testimonials)| + 1
      ensures Details(testimonials[|testimonials| - 1]) == data
      ensures saveSucceeds ==> stored == Some(Parsed(testimonials))
      ensures !saveSucceeds ==> stored == old(stored)
    {
      var newTestimonial := NewTestimonial(data, now, random);
      var updated := testimonials + [newTestimonial];
      if saveSucceeds {
        stored := Some(Parsed(updated));
      }
      testimonials := updated;
    }
  }

  /** A session appends a testimonial whose save fails: the in-memory list
      keeps it, and a reload shows the list as it was stored before. */
  method ReloadAfterFailedSave(storage: Option<StoredTestimonials>, data: TestimonialData, now: int, random: real)
    returns (inMemory: seq<Testimonial>, before: seq<Testimonial>, reloaded: seq<Testimonial>)
    ensures reloaded == before
    ensures inMemory == before + [NewTestimonial(data, now, random)]
  {
    var session := new TestimonialStore(storage);
    session.Load();
    before := session.testimonials;
    session.AddTestimonial(data, now, random, false);
    inMemory := session.testimonials;
    var next := new TestimonialStore(session.stored);
    next.Load();
    reloaded := next.testimonials;
  }
}
