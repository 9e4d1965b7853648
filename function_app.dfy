/** The Azure Functions app: its availability check and its schedule gate.
    Fetching the page, the timer and HTTP triggers and the webhook call are
    not part of this model. */
module FunctionApp {
  import opened Dom
  import opened Detector

  /** `detect_appointments` on an already-parsed page: keyword hits, their
      deduplicated container sections, the icon tier, the fallback tier
      when the icon tier found nothing, then both conditions. */
  method DetectAppointments(doc: seq<Node>) returns (available: bool)
    ensures available == Available(doc)
    ensures available ==> |Sections(doc)| > 0
    ensures available <==>
      exists sec, d :: sec in Sections(doc) && d in Descendants(Children(sec)) && HasCartToken(d)
  {
    var textHits := TextHits(doc);
    var sections := CollectSections(textHits);
    var bookingFound := |sections| > 0;
    var carts := SearchTier(sections, Icons);
    if |carts| == 0 {
      carts := SearchTier(sections, CartClasses);
    }
    available := bookingFound && |carts| > 0;
    VerdictCharacterization(doc);
  }

  /** Weekdays on which the check runs: Monday, Tuesday, Thursday (Monday is 0). */
  const AllowedDays: seq<int> := [0, 1, 3]

  /** `should_run_check` for the Berlin-local weekday and hour of the current time. */
  function ShouldRunCheck(weekday: int, hour: int): (run: bool)
    ensures run <==> (weekday == 0 || weekday == 1 || weekday == 3) && 7 <= hour <= 15
    ensures run ==> 0 <= weekday <= 6 && 0 <= hour <= 23
    ensures weekday == 2 || hour == 16 ==> !run
  {
    var isAllowedDay := weekday in AllowedDays;
    var isAllowedTime := 7 <= hour < 16;
    isAllowedDay && isAllowedTime
  }
}
