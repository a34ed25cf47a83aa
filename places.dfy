/**
 * A place returned by the place query, and the view model derived from it:
 * the display name and address with their fallbacks, the card title, the
 * count line, the marker popup and, for a whole query outcome, the list of
 * markers and cards the page shows.  Each text has a reader that recovers
 * what was written into it.
 */
module Places {
  import opened Wrappers
  import opened Text
  import opened HtmlEscape

  /** A coordinate; the model never computes with it. */
  datatype Coord = Coord(lat: real, lon: real)

  /** Kolkata: where the page starts when geolocation is unavailable. */
  const DefaultLocation: Coord := Coord(22.5726, 88.3639)

  /** One element of the place query's answer: its position and its `name` and `addr:street` tags. */
  datatype Place = Place(pos: Coord, name: Option<string>, street: Option<string>)

  /** The outcome of the place query: the element list (a missing list reads as empty), or a failed request. */
  datatype FetchOutcome = Success(elements: seq<Place>) | Failure

  /** Stands for a map-layer object. */
  type MarkerId = nat

  datatype Marker = Marker(id: MarkerId, pos: Coord, popup: string)

  /** A result card: its `data-index`, title, address line and image alt text (markup), its place and its marker. */
  datatype Card = Card(index: nat, title: string, address: string, alt: string, pos: Coord, marker: MarkerId)

  /** The message that replaces the card grid when there is nothing to list. */
  datatype Notice = NoCafesNearby | FetchFailed

  /** The text each message shows in the grid (the style markup around it is left out). */
  function NoticeText(n: Notice): string
  {
    match n
    case NoCafesNearby => "No cafes found nearby."
    case FetchFailed => "Failed to fetch cafes."
  }

  const UnnamedLabel: string := "Unnamed Cafe"
  const NoAddressLabel: string := "Address unavailable"

  /** JavaScript's `tag || fallback` for an optional string tag: absent and empty both fall back. */
  function OrElse(tag: Option<string>, fallback: string): string
  {
    if tag.Some? && tag.value != [] then tag.value else fallback
  }

  /** The name shown for a place (`place.tags.name || "Unnamed Cafe"`). */
  function DisplayName(p: Place): string
  {
    OrElse(p.name, UnnamedLabel)
  }

  /** The address shown for a place (`place.tags["addr:street"] || "Address unavailable"`). */
  function DisplayAddress(p: Place): string
  {
    OrElse(p.street, NoAddressLabel)
  }

  /**
   * A present, non-empty tag is shown as it is; an absent or empty one gives
   * the fallback label; either way the text shown is never empty.
   */
  lemma DisplayFallbacks(p: Place)
    ensures DisplayName(p) != [] && DisplayAddress(p) != []
    ensures DisplayName(p) == (if p.name.Some? && p.name.value != [] then p.name.value else UnnamedLabel)
    ensures DisplayAddress(p) == (if p.street.Some? && p.street.value != [] then p.street.value else NoAddressLabel)
  {
  }

  // ---------------------------------------------------------------------------
  // Card title

  /** `${index + 1}. ${escapeHtml(name)}`. */
  function CardTitle(index: nat, name: string): string
  {
    NatToString(index + 1) + ". " + EscapeHtml(name)
  }

  /** Reads a card title back into its 1-based rank and its (unescaped) name. */
  function ParseTitle(t: string): Option<(nat, string)>
  {
    var k := IndexOf(t, '.');
    var digits := t[..k];
    if digits != [] && AllDigits(digits) && IsPrefix(". ", t[k..]) then
      Some((ParseDecimal(digits), Unescape(t[k + 2..])))
    else
      None
  }

  lemma TitleRoundTrip(index: nat, name: string)
    ensures ParseTitle(CardTitle(index, name)) == Some((index + 1, name))
  {
    var digits := NatToString(index + 1);
    var t := CardTitle(index, name);
    assert t == digits + (". " + EscapeHtml(name));
    IndexOfConcat(digits, ". " + EscapeHtml(name), '.');
    assert t[..|digits|] == digits;
    assert t[|digits|..] == ". " + EscapeHtml(name);
    assert t[|digits| + 2..] == EscapeHtml(name);
    DecimalRoundTrip(index + 1);
    UnescapeEscape(name);
  }

  // ---------------------------------------------------------------------------
  // Count line

  /** `${n} cafes found`. */
  function CountText(n: nat): string
  {
    NatToString(n) + " cafes found"
  }

  function ParseCount(t: string): Option<nat>
  {
    var k := IndexOf(t, ' ');
    var digits := t[..k];
    if digits != [] && AllDigits(digits) && t[k..] == " cafes found" then
      Some(ParseDecimal(digits))
    else
      None
  }

  lemma CountTextRoundTrip(n: nat)
    ensures ParseCount(CountText(n)) == Some(n)
  {
    var digits := NatToString(n);
    var t := CountText(n);
    IndexOfConcat(digits, " cafes found", ' ');
    assert t[..|digits|] == digits;
    assert t[|digits|..] == " cafes found";
    DecimalRoundTrip(n);
  }

  // ---------------------------------------------------------------------------
  // Marker popup

  /** The popup markup as the source writes it: the name and address are not escaped. */
  function PopupHtmlAsWritten(name: string, address: string): string
  {
    "<b>" + name + "</b><br>" + address
  }

  /** The popup markup with the name and address escaped, as the cards escape them. */
  function PopupHtml(name: string, address: string): string
  {
    "<b>" + EscapeHtml(name) + "</b><br>" + EscapeHtml(address)
  }

  /** Reads a popup back into its name and address. */
  function ParsePopup(t: string): Option<(string, string)>
  {
    if IsPrefix("<b>", t) then
      var body := t[3..];
      var k := IndexOf(body, '<');
      if IsPrefix("</b><br>", body[k..]) then Some((Unescape(body[..k]), Unescape(body[k + 8..]))) else None
    else
      None
  }

  /** The reader splits popup markup at the first `<` after the opening tag. */
  lemma ParsePopupOf(n: string, a: string)
    requires forall i :: 0 <= i < |n| ==> n[i] != '<'
    ensures ParsePopup("<b>" + n + "</b><br>" + a) == Some((Unescape(n), Unescape(a)))
  {
    var tail := "</b><br>" + a;
    var t := "<b>" + n + "</b><br>" + a;
    assert t == "<b>" + (n + tail);
    var body := n + tail;
    assert t[..3] == "<b>" && t[3..] == body;
    IndexOfConcat(n, tail, '<');
    assert body[..|n|] == n && body[|n|..] == tail;
    assert tail[..8] == "</b><br>" && tail[8..] == a;
  }

  lemma PopupRoundTrip(name: string, address: string)
    ensures ParsePopup(PopupHtml(name, address)) == Some((name, address))
  {
    var n := EscapeHtml(name);
    EscapeNoMarkup(name);
    ParsePopupOf(n, EscapeHtml(address));
    UnescapeEscape(name);
    UnescapeEscape(address);
  }

  /** The escaped popup holds no markup but its three fixed tags, whatever the place's tags say. */
  lemma PopupMarkupFixed(name: string, address: string)
    ensures Count('<', PopupHtml(name, address)) == 3
  {
    var n, a := EscapeHtml(name), EscapeHtml(address);
    CountConcat('<', "<b>" + n, "</b><br>" + a);
    CountConcat('<', "<b>", n);
    CountConcat('<', "</b><br>", a);
    EscapeNoMarkup(name);
    EscapeNoMarkup(address);
    CountAbsent('<', n);
    CountAbsent('<', a);
    assert "<b>" + n + "</b><br>" + a == ("<b>" + n) + ("</b><br>" + a);
  }

  /** As written, the popup carries every `<` of the name and address as markup of its own. */
  lemma PopupAsWrittenMarkup(name: string, address: string)
    ensures Count('<', PopupHtmlAsWritten(name, address)) == 3 + Count('<', name) + Count('<', address)
  {
    CountConcat('<', "<b>" + name, "</b><br>" + address);
    CountConcat('<', "<b>", name);
    CountConcat('<', "</b><br>", address);
    assert "<b>" + name + "</b><br>" + address == ("<b>" + name) + ("</b><br>" + address);
  }

  /**
   * As written, a `<` of the name reaches the popup markup unescaped, beyond
   * its three own; one followed by a letter (an image tag with a script
   * handler, say) opens a tag of its own.
   */
  lemma PopupAsWrittenInjects(name: string, address: string, i: nat)
    requires i < |name| && name[i] == '<'
    ensures Count('<', PopupHtmlAsWritten(name, address)) > 3
  {
    PopupAsWrittenMarkup(name, address);
    CountAbsent('<', name);
  }

  /** Where there is nothing to escape, the popup as written and the escaped popup are the same text. */
  lemma PopupAsWrittenAgrees(name: string, address: string)
    requires forall i :: 0 <= i < |name| ==> !IsSpecial(name[i])
    requires forall i :: 0 <= i < |address| ==> !IsSpecial(address[i])
    ensures PopupHtmlAsWritten(name, address) == PopupHtml(name, address)
  {
    EscapeIdentityIff(name);
    EscapeIdentityIff(address);
  }

  /** As written, a name holding a `<` cannot be read back from the popup: the reader stops at that `<`. */
  lemma PopupAsWrittenReadBackFails(name: string, address: string, i: nat)
    requires i < |name| && name[i] == '<'
    ensures ParsePopup(PopupHtmlAsWritten(name, address)) != Some((name, address))
  {
    var tail := "</b><br>" + address;
    var t := PopupHtmlAsWritten(name, address);
    var body := name + tail;
    assert t == "<b>" + body;
    assert t[..3] == "<b>" && t[3..] == body;
    assert body[i] == '<';
    var k := IndexOf(body, '<');
    assert k <= i;
    if ParsePopup(t).Some? {
      assert |ParsePopup(t).value.0| == |Unescape(body[..k])| <= k;
    }
  }

  // ---------------------------------------------------------------------------
  // Marker, card and the whole view

  /** The marker for a place. */
  function MarkerFor(p: Place, id: MarkerId): Marker
  {
    Marker(id, p.pos, PopupHtml(DisplayName(p), DisplayAddress(p)))
  }

  /** The card for a place at position `index`, tied to its marker. */
  function CardFor(p: Place, index: nat, marker: MarkerId): Card
  {
    Card(index, CardTitle(index, DisplayName(p)), EscapeHtml(DisplayAddress(p)), EscapeHtml(DisplayName(p)), p.pos, marker)
  }

  /** The marker and the card of one place show the same name and the same address. */
  lemma MarkerCardAgree(p: Place, index: nat, id: MarkerId)
    ensures ParsePopup(MarkerFor(p, id).popup) == Some((DisplayName(p), DisplayAddress(p)))
    ensures ParseTitle(CardFor(p, index, id).title) == Some((index + 1, DisplayName(p)))
    ensures Unescape(CardFor(p, index, id).address) == DisplayAddress(p)
    ensures Unescape(CardFor(p, index, id).alt) == DisplayName(p)
  {
    PopupRoundTrip(DisplayName(p), DisplayAddress(p));
    TitleRoundTrip(index, DisplayName(p));
    UnescapeEscape(DisplayAddress(p));
    UnescapeEscape(DisplayName(p));
  }

  /** What the page shows after one query: the markers, the cards, the grid message and the count line. */
  datatype View = View(markers: seq<Marker>, cards: seq<Card>, notice: Option<Notice>, countText: string)

  /** One marker per element, in order, element `i` getting marker id `base + i` (the source pushes them one by one). */
  function MarkersFor(es: seq<Place>, base: MarkerId): (ms: seq<Marker>)
    ensures |ms| == |es|
  {
    if es == [] then [] else MarkersFor(es[..|es| - 1], base) + [MarkerFor(es[|es| - 1], base + |es| - 1)]
  }

  lemma {:induction false} MarkersForAt(es: seq<Place>, base: MarkerId, i: nat)
    requires i < |es|
    ensures MarkersFor(es, base)[i] == MarkerFor(es[i], base + i)
  {
    if i < |es| - 1 {
      MarkersForAt(es[..|es| - 1], base, i);
    }
  }

  lemma MarkersForSnoc(es: seq<Place>, base: MarkerId, i: nat)
    requires i < |es|
    ensures MarkersFor(es[..i + 1], base) == MarkersFor(es[..i], base) + [MarkerFor(es[i], base + i)]
  {
    assert es[..i + 1][..i] == es[..i];
  }

  /** One card per element, in order, card `i` tied to marker `base + i`. */
  function CardsFor(es: seq<Place>, base: MarkerId): (cs: seq<Card>)
    ensures |cs| == |es|
  {
    if es == [] then [] else CardsFor(es[..|es| - 1], base) + [CardFor(es[|es| - 1], |es| - 1, base + |es| - 1)]
  }

  lemma {:induction false} CardsForAt(es: seq<Place>, base: MarkerId, i: nat)
    requires i < |es|
    ensures CardsFor(es, base)[i] == CardFor(es[i], i, base + i)
  {
    if i < |es| - 1 {
      CardsForAt(es[..|es| - 1], base, i);
    }
  }

  lemma CardsForSnoc(es: seq<Place>, base: MarkerId, i: nat)
    requires i < |es|
    ensures CardsFor(es[..i + 1], base) == CardsFor(es[..i], base) + [CardFor(es[i], i, base + i)]
  {
    assert es[..i + 1][..i] == es[..i];
  }

  /**
   * The view a query outcome produces, with new markers numbered from `base`:
   * a non-empty element list gives one marker and one card per element, in
   * order; an empty list or a failed request gives neither, and its own message.
   */
  function RenderView(outcome: FetchOutcome, base: MarkerId): (v: View)
    ensures |v.markers| == |v.cards|
    ensures outcome.Success? ==> |v.cards| == |outcome.elements| && v.countText == CountText(|outcome.elements|)
    ensures outcome.Success? ==> (v.notice == None <==> outcome.elements != [])
    ensures outcome == Success([]) ==> v.notice == Some(NoCafesNearby)
    ensures outcome.Failure? ==> v.cards == [] && v.notice == Some(FetchFailed) && v.countText == CountText(0)
  {
    match outcome
    case Failure => View([], [], Some(FetchFailed), CountText(0))
    case Success(es) =>
      if |es| > 0 then View(MarkersFor(es, base), CardsFor(es, base), None, CountText(|es|))
      else View([], [], Some(NoCafesNearby), CountText(0))
  }

  /**
   * Index correspondence: marker `i` and card `i` both come from element `i`,
   * card `i` carries index `i` and is titled with rank `i + 1` and the
   * element's display name, and the count line reads the number of elements.
   */
  lemma RenderViewCorrespondence(es: seq<Place>, base: MarkerId, i: nat)
    requires i < |es|
    ensures var v := RenderView(Success(es), base);
      && v.markers[i] == MarkerFor(es[i], base + i)
      && v.cards[i] == CardFor(es[i], i, base + i)
      && v.cards[i].index == i && v.cards[i].marker == v.markers[i].id == base + i
      && v.cards[i].pos == v.markers[i].pos == es[i].pos
      && ParseTitle(v.cards[i].title) == Some((i + 1, DisplayName(es[i])))
      && ParsePopup(v.markers[i].popup) == Some((DisplayName(es[i]), DisplayAddress(es[i])))
      && ParseCount(v.countText) == Some(|es|)
  {
    MarkersForAt(es, base, i);
    CardsForAt(es, base, i);
    MarkerCardAgree(es[i], i, base + i);
    CountTextRoundTrip(|es|);
  }

  /** An empty answer and a failed request both leave nothing listed and a count of zero. */
  lemma RenderViewNothing(outcome: FetchOutcome, base: MarkerId)
    requires outcome == Success([]) || outcome == Failure
    ensures var v := RenderView(outcome, base);
      v.markers == [] && v.cards == [] && v.notice.Some? && ParseCount(v.countText) == Some(0)
  {
    CountTextRoundTrip(0);
  }

  lemma UnnamedPlain()
    ensures EscapeHtml(UnnamedLabel) == UnnamedLabel
  {
    assert forall i :: 0 <= i < |UnnamedLabel| ==> !IsSpecial(UnnamedLabel[i]);
    EscapeIdentityIff(UnnamedLabel);
  }

  lemma UnnamedTitle()
    ensures CardTitle(1, UnnamedLabel) == "2. " + UnnamedLabel
  {
    UnnamedPlain();
    assert NatToString(2) == "2";
    assert CardTitle(1, UnnamedLabel) == "2" + ". " + UnnamedLabel;
    assert "2" + ". " == "2. ";
  }

  /** The end-to-end example: two elements, the second without a name, read "2 cafes found" and "2. Unnamed Cafe". */
  lemma TwoCafesExample(es: seq<Place>, base: MarkerId)
    requires |es| == 2 && es[1].name == None
    ensures RenderView(Success(es), base).countText == "2" + " cafes found"
    ensures RenderView(Success(es), base).cards[1].title == "2. " + UnnamedLabel
  {
    CardsForAt(es, base, 1);
    UnnamedTitle();
    assert NatToString(2) == "2";
  }
}
