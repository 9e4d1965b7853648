/** Worked examples of the detector on small parsed pages. */
module Scenarios {
  import opened Strings
  import opened Dom
  import opened Detector

  /** Upper-case page text is a keyword hit. */
  lemma UpperCaseKeywordIsHit()
    ensures IsBookingText("TERMIN ANMELDUNG")
  {
    var t := "TERMIN ANMELDUNG";
    assert Lower(t) == "termin anmeldung";
    assert IsPrefix("termin anmeldung", Lower(t));
    assert "termin anmeldung" in BookingKeywords;
  }

  /** Generic page text that merely mentions "Anmeldung" is not a hit:
      it is too short for the long keyword and has no letter folding to `t`. */
  lemma GenericTextIsNoHit()
    ensures !IsBookingText("Anmeldung für Kurse")
  {
    var t := "Anmeldung für Kurse";
    if Contains(Lower(t), "anmeldung zum einbürgerungstest") {
      ContainsBounds(Lower(t), "anmeldung zum einbürgerungstest");
    }
    if Contains(Lower(t), "termin anmeldung") {
      ContainsBounds(Lower(t), "termin anmeldung");
      NoFoldTo(t, 't');
    }
  }

  /** A text none of whose characters is `c` or its upper-case form does not
      contain `c` once lower-cased. */
  lemma NoFoldTo(t: string, c: char)
    requires 'a' <= c <= 'z'
    requires forall i :: 0 <= i < |t| ==> t[i] != c && t[i] as int != c as int - 32
    ensures c !in Lower(t)
  {
  }

  lemma LowerKeywordIsHit()
    ensures IsBookingText("termin anmeldung")
  {
    var t := "termin anmeldung";
    assert NoUpper(t);
    LowerOfLowerCase(t);
    assert IsPrefix("termin anmeldung", Lower(t));
    assert "termin anmeldung" in BookingKeywords;
  }

  // <div>termin anmeldung<div>termin anmeldung<i class="fa-shopping-cart"></i></div></div>
  function CartIcon(): Node { Element("i", [IconMarker], map[], []) }
  function Inner(): Node { Element("div", [], map[], [Text("termin anmeldung"), CartIcon()]) }
  function Outer(): Node { Element("div", [], map[], [Text("termin anmeldung"), Inner()]) }
  function NestedHits(): seq<StringNode>
  {
    [StringNode("termin anmeldung", [Soup([Outer()]), Outer()]),
     StringNode("termin anmeldung", [Soup([Outer()]), Outer(), Inner()])]
  }

  lemma NestedStrings()
    ensures StringsIn([Outer()], [Soup([Outer()])]) == NestedHits()
  {
    var soup := Soup([Outer()]);
    var innerStrs := [StringNode("termin anmeldung", [soup, Outer(), Inner()])];
    assert Inner().children[1..] == [CartIcon()];
    assert StringsIn([CartIcon()], [soup, Outer(), Inner()]) == [];
    assert StringsIn(Inner().children, [soup, Outer(), Inner()]) == innerStrs;
    assert [soup, Outer()] + [Inner()] == [soup, Outer(), Inner()];
    assert [Inner()][1..] == [];
    assert StringsIn([Inner()], [soup, Outer()]) == innerStrs;
    assert Outer().children[1..] == [Inner()];
    assert StringsIn(Outer().children, [soup, Outer()]) == [StringNode("termin anmeldung", [soup, Outer()])] + innerStrs;
    assert [soup] + [Outer()] == [soup, Outer()];
    assert [Outer()][1..] == [];
  }

  lemma NestedTextHits()
    ensures TextHits([Outer()]) == NestedHits()
  {
    var hits := NestedHits();
    NestedStrings();
    LowerKeywordIsHit();
    assert hits[1..][1..] == [];
    assert SelectStrings(hits[1..], IsBookingText) == hits[1..];
  }

  lemma NestedContainers()
    ensures Container(NestedHits()[0]) == Some(Outer())
    ensures Container(NestedHits()[1]) == Some(Inner())
  {
    assert HasName(Inner(), ContainerTags);
    assert HasName(Outer(), ContainerTags);
  }

  lemma NestedSectionsDiffer()
    ensures Inner() != Outer()
  {
    assert |Inner().name| != |CartIcon().name|;
    assert Inner().children[1] != Outer().children[1];
  }

  lemma NestedSectionsOfHits()
    ensures SectionsOf(NestedHits()) == [Outer(), Inner()]
  {
    var hits := NestedHits();
    NestedContainers();
    NestedSectionsDiffer();
    assert hits[..1] == [hits[0]];
    assert hits[..1][..0] == [];
    assert SectionsOf(hits[..1]) == [Outer()];
  }

  lemma NestedSections()
    ensures Sections([Outer()]) == [Outer(), Inner()]
  {
    NestedTextHits();
    NestedSectionsOfHits();
  }

  lemma IconMarkerExample()
    ensures IsMarker(Icons, CartIcon())
    ensures !IsMarker(Icons, Inner())
    ensures !IsMarker(Icons, Text("termin anmeldung"))
  {
    assert Contains(CartIcon().classes[0], IconMarker) by {
      assert IsPrefix(IconMarker, IconMarker);
    }
    assert HasIconToken(CartIcon());
    IconMarkerByToken(CartIcon());
    IconMarkerByToken(Inner());
  }

  lemma NestedIconSearch()
    ensures SectionSearch(Inner(), Icons) == [CartIcon()]
    ensures SectionSearch(Outer(), Icons) == [CartIcon()]
  {
    IconMarkerExample();
    var t := Text("termin anmeldung");
    assert Descendants([CartIcon()]) == [CartIcon()];
    assert Descendants(Children(Inner())) == [t, CartIcon()];
    assert Descendants([Inner()]) == [Inner(), t, CartIcon()];
    assert Descendants(Children(Outer())) == [t, Inner(), t, CartIcon()];
    assert SelectTags([CartIcon()], Some("i"), IsIconClass) == [CartIcon()];
    assert [t, CartIcon()][1..] == [CartIcon()];
    assert SelectTags([t, CartIcon()], Some("i"), IsIconClass) == [CartIcon()];
    assert [Inner(), t, CartIcon()][1..] == [t, CartIcon()];
    assert [t, Inner(), t, CartIcon()][1..] == [Inner(), t, CartIcon()];
  }

  /** Nested sections both see the same icon, so the reported cart count is
      two although the page holds one icon. */
  lemma NestedSectionsCountIconTwice()
    ensures Sections([Outer()]) == [Outer(), Inner()]
    ensures Carts(Sections([Outer()])) == [CartIcon(), CartIcon()]
    ensures Available([Outer()])
  {
    NestedSections();
    NestedSearch();
  }

  lemma NestedSearch()
    ensures SearchOf([Outer(), Inner()], Icons) == [CartIcon(), CartIcon()]
  {
    NestedIconSearch();
    SearchOfPair(Outer(), Inner(), Icons);
  }

  lemma SearchOfPair(a: Node, b: Node, tier: Tier)
    ensures SearchOf([a, b], tier) == SectionSearch(a, tier) + SectionSearch(b, tier)
  {
    assert [a, b][..1] == [a];
    assert [a][..0] == [];
    assert SearchOf([a], tier) == SectionSearch(a, tier);
  }

  // <ul><li>Termin Anmeldung</li><li><span class="warenkorb"></span></li></ul>
  function HitItem(): Node { Element("li", [], map[], [Text("Termin Anmeldung")]) }
  function Basket(): Node { Element("span", ["warenkorb"], map[], []) }
  function CartItem(): Node { Element("li", [], map[], [Basket()]) }
  function SiblingList(): Node { Element("ul", [], map[], [HitItem(), CartItem()]) }

  lemma SiblingTextHits()
    ensures TextHits([SiblingList()]) == [StringNode("Termin Anmeldung", [Soup([SiblingList()]), SiblingList(), HitItem()])]
  {
    var soup := Soup([SiblingList()]);
    var hit := StringNode("Termin Anmeldung", [soup, SiblingList(), HitItem()]);
    assert Lower("Termin Anmeldung") == "termin anmeldung";
    assert IsPrefix("termin anmeldung", Lower("Termin Anmeldung"));
    assert "termin anmeldung" in BookingKeywords;
    assert IsBookingText(hit.text);
    assert [soup, SiblingList()] + [HitItem()] == hit.parents;
    assert StringsIn(HitItem().children, hit.parents) == [hit];
    assert StringsIn([Basket()], [soup, SiblingList(), CartItem()]) == [];
    assert StringsIn([CartItem()], [soup, SiblingList()]) == [];
    assert SiblingList().children[1..] == [CartItem()];
    assert StringsIn(SiblingList().children, [soup, SiblingList()]) == [hit];
    assert [soup] + [SiblingList()] == [soup, SiblingList()];
    assert [SiblingList()][1..] == [];
    assert StringsIn([SiblingList()], [soup]) == [hit];
  }

  lemma SiblingSections()
    ensures Sections([SiblingList()]) == [HitItem()]
  {
    SiblingTextHits();
    var hits := TextHits([SiblingList()]);
    assert HasName(HitItem(), ContainerTags);
    assert Container(hits[0]) == Some(HitItem());
    assert hits[..0] == [];
  }

  /** The keyword's section holds no marker, so the verdict is negative,
      although a sibling item carries a cart class. */
  lemma CartInSiblingItemIgnored()
    ensures HasCartToken(Basket()) && Basket() in Descendants([SiblingList()])
    ensures Sections([SiblingList()]) == [HitItem()]
    ensures !Available([SiblingList()])
  {
    assert IsPrefix("warenkorb", Lower("warenkorb")) by {
      assert NoUpper("warenkorb");
      LowerOfLowerCase("warenkorb");
    }
    assert Basket().classes[0] == "warenkorb";
    assert "warenkorb" in CartMarkers;
    assert HasCartToken(Basket());
    assert Basket() in Descendants(Children(CartItem()));
    SiblingSections();
    var t := Text("Termin Anmeldung");
    assert Descendants(Children(HitItem())) == [t];
    forall tier ensures SectionSearch(HitItem(), tier) == [] {
      assert !TagMatches(t, TierName(tier), TierClass(tier));
    }
    assert [HitItem()][..0] == [];
  }
}
