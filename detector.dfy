/** The appointment-availability detector: keyword hits, their container
    sections (deduplicated), the two-tier search for cart markers inside
    those sections, and the final verdict. The functions here are the
    specification; `CollectSections` and `SearchTier` are the loops that
    both entry points (`FunctionApp`, `MainScript`) run. */
module Detector {
  import opened Strings
  import opened Dom

  /** Phrases that anchor a booking section (compared against lower-cased text). */
  const BookingKeywords: seq<string> := ["termin anmeldung", "anmeldung zum einbürgerungstest"]

  /** Tag names of the structural containers a keyword hit is attributed to. */
  const ContainerTags: seq<string> := ["tr", "li", "div", "section"]

  /** The FontAwesome cart icon class looked for by the first tier (case-sensitive). */
  const IconMarker := "fa-shopping-cart"

  /** Cart-like class fragments looked for by the fallback tier (after lower-casing). */
  const CartMarkers: seq<string> := ["shopping-cart", "warenkorb"]

  /** The `string=` filter: non-empty text whose lower-cased form holds a keyword. */
  predicate IsBookingText(t: string)
    ensures IsBookingText(t) <==>
      Contains(Lower(t), "termin anmeldung") || Contains(Lower(t), "anmeldung zum einbürgerungstest")
    ensures |t| == 0 ==> !IsBookingText(t)
  {
    |t| > 0 && ContainsAny(Lower(t), BookingKeywords)
  }

  /** The first tier's `class_` filter. */
  predicate IsIconClass(c: string)
    ensures IsIconClass(c) <==> Contains(c, "fa-shopping-cart")
  {
    |c| > 0 && Contains(c, IconMarker)
  }

  /** The fallback tier's `class_` filter. */
  predicate IsCartClass(c: string)
    ensures IsCartClass(c) <==> Contains(Lower(c), "shopping-cart") || Contains(Lower(c), "warenkorb")
  {
    |c| > 0 && ContainsAny(Lower(c), CartMarkers)
  }

  /** The two marker searches, in the order they are tried. */
  datatype Tier = Icons | CartClasses

  function TierName(tier: Tier): Option<string>
  {
    if tier == Icons then Some("i") else None
  }

  function TierClass(tier: Tier): string -> bool
  {
    if tier == Icons then IsIconClass else IsCartClass
  }

  /** `n` is what the tier's `find_all` call selects. */
  predicate IsMarker(tier: Tier, n: Node)
  {
    TagMatches(n, TierName(tier), TierClass(tier))
  }

  /** The tier's `sec.find_all(...)`: its markers among the proper descendants of `sec`. */
  function SectionSearch(sec: Node, tier: Tier): seq<Node>
  {
    FindAll(sec, TierName(tier), TierClass(tier))
  }

  /** An `<i>` element with a class token holding `fa-shopping-cart`, case-sensitively. */
  predicate HasIconToken(n: Node)
  {
    n.Element? && n.name == "i" &&
    exists i :: 0 <= i < |n.classes| && Contains(n.classes[i], IconMarker)
  }

  /** Any element with a class token whose lower-cased form holds a cart fragment. */
  predicate HasCartToken(n: Node)
  {
    n.Element? &&
    exists i :: 0 <= i < |n.classes| && ContainsAny(Lower(n.classes[i]), CartMarkers)
  }

  /** The keyword hits of the page, in document order. */
  function TextHits(doc: seq<Node>): seq<StringNode>
  {
    FindAllStrings(Soup(doc), IsBookingText)
  }

  /** The container a hit is attributed to: its nearest proper ancestor named tr, li, div or section. */
  function Container(h: StringNode): Option<Node>
  {
    FindParent(h.parents, ContainerTags)
  }

  /** The section list after processing `hits` in order: an empty string is
      skipped, a hit without a container adds nothing, and a container is
      appended only when no equal one is already listed. */
  function SectionsOf(hits: seq<StringNode>): seq<Node>
    decreases |hits|
  {
    if hits == [] then []
    else
      var sections := SectionsOf(hits[..|hits| - 1]);
      var h := hits[|hits| - 1];
      if |h.text| == 0 then sections
      else match Container(h)
        case None => sections
        case Some(c) => if c in sections then sections else sections + [c]
  }

  function Sections(doc: seq<Node>): seq<Node>
  {
    SectionsOf(TextHits(doc))
  }

  /** The carts one tier collects: the per-section results concatenated in section order. */
  function SearchOf(sections: seq<Node>, tier: Tier): seq<Node>
    decreases |sections|
  {
    if sections == [] then []
    else SearchOf(sections[..|sections| - 1], tier) + SectionSearch(sections[|sections| - 1], tier)
  }

  /** The icon tier's carts, or the fallback tier's when the icon tier found none. */
  function Carts(sections: seq<Node>): seq<Node>
  {
    var icons := SearchOf(sections, Icons);
    if |icons| > 0 then icons else SearchOf(sections, CartClasses)
  }

  /** The verdict: some section was found and some cart was found. */
  predicate Available(doc: seq<Node>)
  {
    var sections := Sections(doc);
    |sections| > 0 && |Carts(sections)| > 0
  }

  /** The number of matches of one tier, summed section by section. */
  function CountOf(sections: seq<Node>, tier: Tier): nat
  {
    if sections == [] then 0
    else |SectionSearch(sections[0], tier)| + CountOf(sections[1..], tier)
  }

  // ----- The loops of detect_appointments -----

  /** Steps 1 and 2: attribute every hit to its container, keeping each container once. */
  method CollectSections(hits: seq<StringNode>) returns (sections: seq<Node>)
    ensures sections == SectionsOf(hits)
    ensures forall i, j :: 0 <= i < j < |sections| ==> sections[i] != sections[j]
    ensures forall c :: c in sections <==> exists h :: h in hits && |h.text| > 0 && Container(h) == Some(c)
  {
    sections := [];
    for k := 0 to |hits|
      invariant sections == SectionsOf(hits[..k])
    {
      var t := hits[k];
      assert hits[..k + 1][..k] == hits[..k];
      if |t.text| == 0 {
        continue;
      }
      var container := FindParent(t.parents, ContainerTags);
      if container.Some? && container.value !in sections {
        sections := sections + [container.value];
      }
    }
    assert hits[..|hits|] == hits;
    SectionsDistinct(hits);
    forall c ensures c in sections <==> exists h :: h in hits && |h.text| > 0 && Container(h) == Some(c) {
      SectionsMembership(hits, c);
    }
  }

  /** Step 3, one tier: the tier's matches in every section, appended section by section. */
  method SearchTier(sections: seq<Node>, tier: Tier) returns (carts: seq<Node>)
    ensures carts == SearchOf(sections, tier)
    ensures |carts| == CountOf(sections, tier)
    ensures forall d :: d in carts <==> IsMarker(tier, d) && exists sec :: sec in sections && d in Descendants(Children(sec))
  {
    carts := [];
    for k := 0 to |sections|
      invariant carts == SearchOf(sections[..k], tier)
    {
      assert sections[..k + 1][..k] == sections[..k];
      var found := SectionSearch(sections[k], tier);
      if |found| > 0 {
        carts := carts + found;
      }
    }
    assert sections[..|sections|] == sections;
    SearchCount(sections, tier);
    forall d ensures d in carts <==> IsMarker(tier, d) && exists sec :: sec in sections && d in Descendants(Children(sec)) {
      SearchMembership(sections, tier, d);
    }
  }

  // ----- Sections -----

  /** No container is listed twice. */
  lemma {:induction false} SectionsDistinct(hits: seq<StringNode>)
    ensures forall i, j :: 0 <= i < j < |SectionsOf(hits)| ==> SectionsOf(hits)[i] != SectionsOf(hits)[j]
    decreases |hits|
  {
    if hits != [] {
      SectionsDistinct(hits[..|hits| - 1]);
    }
  }

  /** A container is listed iff it is the container of some non-empty hit. */
  lemma {:induction false} SectionsMembership(hits: seq<StringNode>, c: Node)
    ensures c in SectionsOf(hits) <==> exists h :: h in hits && |h.text| > 0 && Container(h) == Some(c)
    decreases |hits|
  {
    if hits != [] {
      var init := hits[..|hits| - 1];
      var h := hits[|hits| - 1];
      SectionsMembership(init, c);
      assert hits == init + [h];
      if c in SectionsOf(init) {
        var g :| g in init && |g.text| > 0 && Container(g) == Some(c);
        assert g in hits;
      }
      if exists g :: g in hits && |g.text| > 0 && Container(g) == Some(c) {
        var g :| g in hits && |g.text| > 0 && Container(g) == Some(c);
        if g != h {
          assert g in init;
        }
      }
    }
  }

  /** Hits whose containers are all listed already leave the section list unchanged. */
  lemma {:induction false} SectionsAbsorb(hits: seq<StringNode>, more: seq<StringNode>)
    requires forall h :: h in more && |h.text| > 0 && Container(h).Some? ==> Container(h).value in SectionsOf(hits)
    ensures SectionsOf(hits + more) == SectionsOf(hits)
    decreases |more|
  {
    if more == [] {
      assert hits + more == hits;
    } else {
      var init := more[..|more| - 1];
      var h := more[|more| - 1];
      assert more == init + [h];
      assert h in more;
      assert forall g :: g in init ==> g in more;
      assert (hits + more)[..|hits + more| - 1] == hits + init;
      assert (hits + more)[|hits + more| - 1] == h;
      SectionsAbsorb(hits, init);
    }
  }

  /** Processing the same hits a second time adds no section. */
  lemma SectionsIdempotent(hits: seq<StringNode>)
    ensures SectionsOf(hits + hits) == SectionsOf(hits)
  {
    forall h | h in hits && |h.text| > 0 && Container(h).Some?
      ensures Container(h).value in SectionsOf(hits)
    {
      SectionsMembership(hits, Container(h).value);
    }
    SectionsAbsorb(hits, hits);
  }

  // ----- Markers -----

  /** bs4's joined-value attempt adds nothing: the icon tier selects exactly
      the `<i>` elements with a token containing `fa-shopping-cart`. */
  lemma IconMarkerByToken(n: Node)
    ensures IsMarker(Icons, n) <==> HasIconToken(n)
  {
    if n.Element? && IsIconClass(Join(n.classes)) {
      assert NoSpace(IconMarker);
      ContainsInJoin(n.classes, IconMarker);
    }
  }

  /** Likewise, the fallback tier selects exactly the elements with a token
      whose lower-cased form contains `shopping-cart` or `warenkorb`. */
  lemma CartMarkerByToken(n: Node)
    ensures IsMarker(CartClasses, n) <==> HasCartToken(n)
  {
    if n.Element? && IsCartClass(Join(n.classes)) {
      var k :| k in CartMarkers && Contains(Lower(Join(n.classes)), k);
      assert NoSpace(k) && |k| > 0;
      LowerJoin(n.classes);
      ContainsInJoin(LowerAll(n.classes), k);
      var i :| 0 <= i < |n.classes| && Contains(LowerAll(n.classes)[i], k);
      assert ContainsAny(Lower(n.classes[i]), CartMarkers);
    }
    if HasCartToken(n) {
      var i :| 0 <= i < |n.classes| && ContainsAny(Lower(n.classes[i]), CartMarkers);
      assert IsCartClass(n.classes[i]);
    }
  }

  /** Every icon-tier marker is also a fallback-tier marker, because
      `fa-shopping-cart` contains `shopping-cart`. */
  lemma {:induction false} IconImpliesCartClass(n: Node)
    requires HasIconToken(n)
    ensures HasCartToken(n)
  {
    var i :| 0 <= i < |n.classes| && Contains(n.classes[i], IconMarker);
    ContainsLower(n.classes[i], IconMarker);
    IconMarkerFacts();
    ContainsTransitive(Lower(n.classes[i]), IconMarker, "shopping-cart");
    assert "shopping-cart" in CartMarkers;
  }

  lemma IconMarkerFacts()
    ensures Lower(IconMarker) == IconMarker
    ensures Contains(IconMarker, "shopping-cart")
  {
    assert NoUpper(IconMarker);
    LowerOfLowerCase(IconMarker);
    assert IsPrefix("shopping-cart", IconMarker[3..]);
    assert IconMarker[3..][1..] == IconMarker[4..];
  }

  // ----- Cart search -----

  /** One section's search keeps repeats: a marker occurring k times among
      the section's proper descendants is reported k times, so the printed
      cart count counts positions, not distinct tags. */
  lemma SectionSearchMultiplicity(sec: Node, tier: Tier, n: Node)
    ensures multiset(SectionSearch(sec, tier))[n] ==
      if IsMarker(tier, n) then multiset(Descendants(Children(sec)))[n] else 0
  {
    SelectTagsMultiplicity(Descendants(Children(sec)), TierName(tier), TierClass(tier), n);
  }

  /** A tier's cart list holds exactly its markers that are proper descendants of some section. */
  lemma {:induction false} SearchMembership(sections: seq<Node>, tier: Tier, d: Node)
    ensures d in SearchOf(sections, tier) <==>
      IsMarker(tier, d) && exists sec :: sec in sections && d in Descendants(Children(sec))
    decreases |sections|
  {
    if sections != [] {
      var init := sections[..|sections| - 1];
      var last := sections[|sections| - 1];
      SearchMembership(init, tier, d);
      assert sections == init + [last];
      if d in SearchOf(sections, tier) && d !in SectionSearch(last, tier) {
        var sec :| sec in init && d in Descendants(Children(sec));
        assert sec in sections;
      }
      if IsMarker(tier, d) && exists sec :: sec in sections && d in Descendants(Children(sec)) {
        var sec :| sec in sections && d in Descendants(Children(sec));
        if sec != last {
          assert sec in init;
        }
      }
    }
  }

  /** The length of a tier's cart list is the sum of the per-section match counts. */
  lemma {:induction false} SearchCount(sections: seq<Node>, tier: Tier)
    ensures |SearchOf(sections, tier)| == CountOf(sections, tier)
    decreases |sections|
  {
    if sections != [] {
      var init := sections[..|sections| - 1];
      SearchCount(init, tier);
      CountSnoc(init, sections[|sections| - 1], tier);
      assert init + [sections[|sections| - 1]] == sections;
    }
  }

  lemma {:induction false} CountSnoc(sections: seq<Node>, sec: Node, tier: Tier)
    ensures CountOf(sections + [sec], tier) == CountOf(sections, tier) + |SectionSearch(sec, tier)|
    decreases |sections|
  {
    if sections != [] {
      assert (sections + [sec])[1..] == sections[1..] + [sec];
      CountSnoc(sections[1..], sec, tier);
    }
  }

  /** A section's own class never makes it a cart of that section. */
  lemma SectionNotOwnCart(sec: Node, tier: Tier)
    ensures sec !in SectionSearch(sec, tier)
  {
    NotOwnDescendant(sec);
  }

  /** The fallback runs only when the icon tier found nothing; when the icon
      tier found something, every cart is an `<i>` with a
      `fa-shopping-cart` token. Every cart is a marker below some section. */
  lemma CartsTiers(sections: seq<Node>)
    ensures |SearchOf(sections, Icons)| > 0 ==>
      Carts(sections) == SearchOf(sections, Icons) && forall d :: d in Carts(sections) ==> HasIconToken(d)
    ensures |SearchOf(sections, Icons)| == 0 ==> Carts(sections) == SearchOf(sections, CartClasses)
    ensures forall d :: d in Carts(sections) ==>
      HasCartToken(d) && exists sec :: sec in sections && d in Descendants(Children(sec))
  {
    forall d | d in Carts(sections)
      ensures HasCartToken(d) && exists sec :: sec in sections && d in Descendants(Children(sec))
    {
      if |SearchOf(sections, Icons)| > 0 {
        SearchMembership(sections, Icons, d);
        IconMarkerByToken(d);
        IconImpliesCartClass(d);
      } else {
        SearchMembership(sections, CartClasses, d);
        CartMarkerByToken(d);
      }
    }
    if |SearchOf(sections, Icons)| > 0 {
      forall d | d in Carts(sections) ensures HasIconToken(d) {
        SearchMembership(sections, Icons, d);
        IconMarkerByToken(d);
      }
    }
  }

  /** Carts are found iff some section has a proper descendant with a
      cart-like class token: the fallback tier alone decides the verdict. */
  lemma CartsIffCartLikeDescendant(sections: seq<Node>)
    ensures |Carts(sections)| > 0 <==>
      exists sec, d :: sec in sections && d in Descendants(Children(sec)) && HasCartToken(d)
  {
    CartsTiers(sections);
    if |Carts(sections)| > 0 {
      assert Carts(sections)[0] in Carts(sections);
    }
    if exists sec, d :: sec in sections && d in Descendants(Children(sec)) && HasCartToken(d) {
      var sec, d :| sec in sections && d in Descendants(Children(sec)) && HasCartToken(d);
      CartMarkerByToken(d);
      SearchMembership(sections, CartClasses, d);
    }
  }

  // ----- Verdict -----

  /** The verdict is "carts found" (carts come only from sections), and it
      holds iff some candidate section has a proper descendant with a
      cart-like class token. */
  lemma VerdictCharacterization(doc: seq<Node>)
    ensures Available(doc) <==> |Carts(Sections(doc))| > 0
    ensures Available(doc) <==>
      exists sec, d :: sec in Sections(doc) && d in Descendants(Children(sec)) && HasCartToken(d)
  {
    CartsIffCartLikeDescendant(Sections(doc));
  }

  /** The verdict stated on the page itself: some keyword hit has a
      tr/li/div/section container with a proper descendant that carries a
      cart-like class token. */
  lemma VerdictFromHits(doc: seq<Node>)
    ensures Available(doc) <==>
      exists h, d :: h in TextHits(doc) && Container(h).Some? &&
        d in Descendants(Children(Container(h).value)) && HasCartToken(d)
  {
    VerdictCharacterization(doc);
    var hits := TextHits(doc);
    if Available(doc) {
      var sec, d :| sec in Sections(doc) && d in Descendants(Children(sec)) && HasCartToken(d);
      SectionsMembership(hits, sec);
      var h :| h in hits && |h.text| > 0 && Container(h) == Some(sec);
      assert Container(h).value == sec;
    }
    if exists h, d :: h in hits && Container(h).Some? && d in Descendants(Children(Container(h).value)) && HasCartToken(d) {
      var h, d :| h in hits && Container(h).Some? && d in Descendants(Children(Container(h).value)) && HasCartToken(d);
      var sec := Container(h).value;
      assert IsBookingText(h.text);
      SectionsMembership(hits, sec);
      assert sec in Sections(doc);
    }
  }

  /** A page without keyword text has no hits, no sections and a negative verdict. */
  lemma NoKeywordNoSections(doc: seq<Node>)
    requires forall s :: s in StringsIn(doc, [Soup(doc)]) ==> !IsBookingText(s.text)
    ensures TextHits(doc) == [] && Sections(doc) == [] && !Available(doc)
  {
  }

  /** Hits that have no qualifying ancestor contribute nothing: if no hit
      has one, there are no sections and the verdict is negative. */
  lemma NoContainerNoSections(doc: seq<Node>)
    requires forall h :: h in TextHits(doc) ==> Container(h).None?
    ensures Sections(doc) == [] && !Available(doc)
  {
    if Sections(doc) != [] {
      SectionsMembership(TextHits(doc), Sections(doc)[0]);
    }
  }

  /** Keyword matching ignores letter case. */
  lemma BookingTextIgnoresCase(t: string)
    ensures IsBookingText(t) <==> IsBookingText(Lower(t))
  {
    assert Lower(Lower(t)) == Lower(t);
  }
}
