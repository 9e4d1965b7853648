# Appointment-availability detector: a Dafny model

This project models the core of a small monitor that polls a citizenship-test
booking page and decides whether bookable appointment slots are shown. The
decision is made by `detect_appointments`, which is the same function in
`function_app.py` (the Azure Functions app) and in `main.py` (the command-line
script). The function works on the page's parsed HTML tree in three steps:

1. **Sections.** Every string node whose lower-cased text contains
   `termin anmeldung` or `anmeldung zum einbürgerungstest` is a keyword hit.
   Each hit is attributed to its nearest proper ancestor named `tr`, `li`,
   `div` or `section`. Equal containers are kept once, in first-seen order.
2. **Carts.** Each section's proper descendants are searched for `<i>`
   elements whose class contains `fa-shopping-cart` (case-sensitive). Only
   if no section yields one, the descendants are searched again for any
   element whose lower-cased class contains `shopping-cart` or `warenkorb`.
3. **Verdict.** Appointments are available iff at least one section and at
   least one cart were found.

The app also has a schedule gate, `should_run_check`. It lets the check run
on Monday, Tuesday and Thursday from 07:00 up to but excluding 16:00, Berlin time.

Modules:

- `Strings` (strings.dfy): the Python string operations involved. This is
  ASCII `lower()`, the substring test `in`, and `' '.join`, with their lemmas.
- `Dom` (dom.dfy): the parsed tree and the BeautifulSoup queries the detector
  calls. `Node` is `Text` or `Element(name, classes, attrs, children)`. The
  document root is an element named `[document]`. A string node carries the
  chain of its ancestors, so `find_parent` can walk upwards. Datatype
  equality stands for bs4's structural `Tag.__eq__`, which the deduplication
  test `container not in appointment_sections` relies on. The one exception
  is a tag with no `class` attribute and the same tag with `class=""`:
  bs4 tells them apart, the model does not (see "## Left out"). Class filters
  follow bs4: the filter is tried on each class token and then on the
  space-joined value.
- `Detector` (detector.dfy): the keywords, container tags and markers; the
  specification functions `Sections`, `SearchOf`, `Carts` and `Available`;
  the two loops (`CollectSections`, `SearchTier`), proved against those
  functions; and the lemmas.
- `FunctionApp` (function_app.dfy): `DetectAppointments` and `ShouldRunCheck`.
- `MainScript` (main_script.dfy): the script's `DetectAppointments`. It
  returns the section and cart counts that the script prints. Its verdict is
  stated to be `Detector.Available`, which is also the verdict of
  `FunctionApp.DetectAppointments`.
- `Scenarios` (scenarios.dfy): worked examples on small concrete pages.

Marker matching is only partly case-insensitive: the icon tier tests
`fa-shopping-cart` case-sensitively, and only the fallback tier lower-cases
the class value. The model follows this. For the
verdict the difference does not matter, because `CartsIffCartLikeDescendant`
shows the fallback tier alone decides it.

## Model

| member | source | states |
|---|---|---|
| `FunctionApp.DetectAppointments` | function_app.py:19-61 | the verdict is `Available(doc)`; it is true only with a section, and true iff some section has a proper descendant whose class token, lower-cased, holds `shopping-cart` or `warenkorb` |
| `FunctionApp.ShouldRunCheck` | function_app.py:63-83 | true iff the weekday is 0, 1 or 3 and 7 <= hour <= 15; Wednesday (2) and hour 16 are rejected; true only for valid clock values |
| `MainScript.DetectAppointments` | main.py:18-64 | same verdict as the function_app.py version (`Available(doc)`); the section count is the number of distinct sections; the cart count is the length of the cart list, i.e. the icon tier's per-section total if positive, else the fallback tier's; verdict iff cart count > 0; no section means verdict false and cart count 0 |
| `Detector.IsBookingText` | function_app.py:30 | a text is a keyword hit iff its (ASCII) lower-cased form contains `termin anmeldung` or `anmeldung zum einbürgerungstest`; the empty text never is |
| `Detector.IsIconClass` | function_app.py:47 | a class value passes the icon filter iff it contains `fa-shopping-cart`, case-sensitively |
| `Detector.IsCartClass` | function_app.py:54 | a class value passes the fallback filter iff its lower-cased form contains `shopping-cart` or `warenkorb` |
| `Detector.CollectSections` | function_app.py:33-40 | the loop yields `SectionsOf(hits)`, which has no two equal entries and holds exactly the containers of the non-empty hits |
| `Detector.SearchTier` | function_app.py:45-49 | the loop yields the tier's per-section matches concatenated in section order; its length is the sum of the per-section counts; a node is in it iff it is a marker of the tier and a proper descendant of some section |
| `Detector.SectionsDistinct` | function_app.py:38-40 | the section list never holds two equal containers |
| `Detector.SectionsMembership` | function_app.py:34-40 | a node is a section iff it is the nearest tr/li/div/section ancestor of some non-empty hit |
| `Detector.SectionsAbsorb` | main.py:37-39 | hits whose containers are already listed, or that have none, leave the section list unchanged |
| `Detector.SectionsIdempotent` | main.py:32-39 | processing the same hits twice gives the same section list as processing them once |
| `Detector.IconMarkerByToken` | function_app.py:47 | the icon tier's `find_all('i', class_=...)` selects exactly the `<i>` elements with a class token containing `fa-shopping-cart`; bs4's joined-value attempt adds nothing |
| `Detector.CartMarkerByToken` | function_app.py:54 | the fallback tier selects exactly the elements with a class token whose lower-cased form contains `shopping-cart` or `warenkorb` |
| `Detector.IconImpliesCartClass` | function_app.py:47-56 | every icon-tier marker is also a fallback-tier marker |
| `Detector.SectionSearchMultiplicity` | main.py:44-62 | one section's search reports a tier marker once per position among the section's proper descendants, so the printed cart count counts positions, with multiplicity |
| `Detector.SearchMembership` | function_app.py:45-56 | a tier's cart list holds exactly the tier's markers that are proper descendants of some section |
| `Detector.SearchCount` | main.py:44-62 | the number of carts a tier reports is the sum over sections, in order, of that section's matches |
| `Detector.SectionNotOwnCart` | function_app.py:47 | a section's own class never makes it a cart of that section |
| `Detector.CartsTiers` | function_app.py:45-56 | if the icon tier found something, the carts are its result and are all `<i>` elements with a `fa-shopping-cart` token; otherwise the carts are the fallback tier's result; every cart has a cart-like token and is a proper descendant of some section |
| `Detector.CartsIffCartLikeDescendant` | function_app.py:45-59 | carts are found iff some section has a proper descendant with a cart-like class token |
| `Detector.VerdictCharacterization` | function_app.py:42-59 | the verdict equals "carts non-empty", and holds iff some section has a proper descendant with a cart-like class token |
| `Detector.VerdictFromHits` | function_app.py:28-59 | the verdict holds iff some keyword hit has a tr/li/div/section container with a proper descendant carrying a cart-like class token |
| `Detector.NoKeywordNoSections` | function_app.py:23-59 | a page with no keyword text has no hits, no sections and verdict false |
| `Detector.NoContainerNoSections` | function_app.py:34-42 | if no hit has a tr/li/div/section ancestor, there are no sections and the verdict is false |
| `Detector.BookingTextIgnoresCase` | function_app.py:30 | a text is a keyword hit iff its lower-cased form is one |
| `Dom.FindParent` | function_app.py:38 | the result is None iff no ancestor has a container name; otherwise it is an ancestor with such a name that has none below it, i.e. the nearest one |
| `Dom.SelectStrings` | function_app.py:29-31 | the selected string nodes are exactly those of the document whose text passes the filter; none pass, none are selected |
| `Dom.SelectTags` | function_app.py:47 | the selected nodes are exactly the tags among the candidates that match the name and class filter |
| `Dom.SelectTagsMultiplicity` | function_app.py:47 | the selection keeps repeats: a matching node occurring k times among the candidates occurs k times in the result, any other node not at all |
| `Dom.NotOwnDescendant` | function_app.py:47 | a tag is never among its own proper descendants |
| `Strings.ContainsInJoin` | function_app.py:54 | a space-free marker occurs in the space-joined class value iff it occurs in one class token |
| `Scenarios.UpperCaseKeywordIsHit` | main.py:28-30 | `TERMIN ANMELDUNG` is a keyword hit |
| `Scenarios.GenericTextIsNoHit` | function_app.py:22-30 | `Anmeldung für Kurse`, which mentions only `Anmeldung`, is not a keyword hit |
| `Scenarios.NestedSectionsCountIconTwice` | main.py:44-62 | with one icon inside two nested keyword sections, both sections are listed, the cart list holds that icon twice, and the verdict is true |
| `Scenarios.CartInSiblingItemIgnored` | function_app.py:44-59 | a keyword in one `<li>` with a `warenkorb` class in a sibling `<li>` gives one section and verdict false |

## Left out

- Page fetching (`fetch_page`) is left out. It is an HTTP GET through `requests`.
- Webhook delivery (`send_logic_app_notification`) is left out. It reads an environment variable, does an HTTP POST and catches exceptions.
- The Azure triggers (`vhs_appointment_timer`, `vhs_monitor`) and the script's `main` are left out. They are framework glue, JSON payloads and timestamps.
- HTML parsing by BeautifulSoup is left out: the detector receives the already-parsed tree (`seq<Node>`, the top-level nodes of the page).
- `datetime.now` and the Berlin timezone are left out: `ShouldRunCheck` receives the weekday and hour as inputs.
- Logging and `print` are left out. The two counts the script prints are returned instead.
- Lower-casing is ASCII folding only. Python's full Unicode `str.lower()` is not modelled. The keywords' `ü` is already lower case.
- Comments, CDATA and the other special string kinds of bs4 are all plain `Text` nodes here.
- An absent `class` attribute and an empty one are both the empty token list. bs4's `Tag.__eq__` compares attributes, so `<li>termin anmeldung</li>` and `<li class="">termin anmeldung</li>` are two sections in the source but one `Node` value here. On such a page the model keeps one section where the script keeps two, so the printed section and cart counts can be lower. The verdict is the same, since both tags have the same descendants.
- Python lists that are appended to in place are sequences that the loops reassign. No list aliasing happens in the source.
