/** The command-line script: the same detector, which also reports how many
    sections and carts it found (printed by the script; returned here). */
module MainScript {
  import opened Dom
  import opened Detector

  /** `detect_appointments` of the script, with the two counts it prints. Its
      verdict is the one `FunctionApp.DetectAppointments` computes. */
  method DetectAppointments(doc: seq<Node>) returns (available: bool, sectionCount: nat, cartCount: nat)
    ensures available == Available(doc)
    ensures sectionCount == |Sections(doc)|
    ensures cartCount == |Carts(Sections(doc))|
    ensures cartCount == (if CountOf(Sections(doc), Icons) > 0 then CountOf(Sections(doc), Icons)
                          else CountOf(Sections(doc), CartClasses))
    ensures available <==> cartCount > 0
    ensures sectionCount == 0 ==> !available && cartCount == 0
  {
    var textHits := TextHits(doc);
    var sections := CollectSections(textHits);
    var bookingFound := |sections| > 0;
    var carts := SearchTier(sections, Icons);
    if |carts| == 0 {
      carts := SearchTier(sections, CartClasses);
    }
    available := bookingFound && |carts| > 0;
    sectionCount := |sections|;
    cartCount := |carts|;
    VerdictCharacterization(doc);
  }
}
