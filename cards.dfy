/** The data `getListingCode` puts into one listing card, as a record rather
    than markup, and `listings.map(getListingCode)` over the displayed page. */
module Cards {
  import opened JsValues
  import opened Strings
  import opened Seqs
  import opened Listings
  import opened TextHelpers

  /** How many amenity badges a card shows at most. */
  const MaxBadges: nat := 6

  const Untitled: string := "Untitled"
  const NoPrice: string := "N/A"
  const UnknownHost: string := "Unknown host"
  const NoDescription: string := "No description provided."
  const LineBreak: string := "<br>"
  const OpenLabel: string := "Open listing"
  const NoLinkLabel: string := "No link available"

  /** Either the rendered value, or the `TypeError` the template throws. */
  datatype Rendered<T> = Done(value: T) | TypeError

  /** What one card shows. Text marked "attribute" went through `escapeAttr`;
      `name`, `price`, `hostName` and the badges are interpolated as they are. */
  datatype Card = Card(
    id: string,             // the listing's identifier
    idAttr: string,         // attribute: data-id of the card and of its favourite button
    isFavorite: bool,       // filled heart and "btn-danger" style
    name: string,
    price: string,
    hostName: string,
    imageAttr: string,      // attribute: thumbnail source and preview source
    titleAttr: string,      // attribute: preview title
    captionAttr: string,    // attribute: preview caption
    hostImageAttr: string,  // attribute: host avatar source
    summary: string,        // the <summary> text
    details: string,        // the expanded description
    badges: seq<string>,    // the amenity badges shown
    moreCount: nat,         // the "+N more" badge, drawn when positive
    href: string,           // attribute: the link target
    linkEnabled: bool,      // false: the link carries the "disabled" class
    linkLabel: string)

  /** `listing.listing_url ? String(listing.listing_url) : ""`. */
  function LinkOf(l: Listing): (r: string)
    ensures !Truthy(l.listingUrl) ==> r == ""
    ensures Truthy(l.listingUrl) ==> r == ToString(l.listingUrl)
    ensures l.listingUrl.Str? ==> r == l.listingUrl.s
  {
    if Truthy(l.listingUrl) then ToString(l.listingUrl) else ""
  }

  /** The caption text: price, a bullet, and the host. */
  function Caption(price: string, hostName: string): (r: string)
    ensures |r| == |price| + 9 + |hostName|
    ensures r[..|price|] == price && r[|price|..|price| + 9] == " \U{2022} Host: "
    ensures r[|price| + 9..] == hostName
  {
    price + " \U{2022} Host: " + hostName
  }

  /** The expanded description: escaped element text with each line feed
      turned into a line break tag. */
  function DetailsText(descRaw: string): (r: string)
    ensures r == Encode(descRaw, BreakEntity)
    ensures Unescape(r) == ReplaceAll(descRaw, '\n', LineBreak)
    ensures '\n' !in r && '"' !in r && '\'' !in r
    ensures MarksCopies(r, LineBreak)
  {
    DetailsFacts(descRaw);
    ReplaceAll(EscapeHtml(Str(descRaw)), '\n', LineBreak)
  }

  lemma DetailsFacts(descRaw: string)
    ensures var r := ReplaceAll(EscapeHtml(Str(descRaw)), '\n', LineBreak);
      && r == Encode(descRaw, BreakEntity)
      && Unescape(r) == ReplaceAll(descRaw, '\n', LineBreak)
      && '\n' !in r && '"' !in r && '\'' !in r
      && MarksCopies(r, LineBreak)
  {
    var e := EscapeHtml(Str(descRaw));
    DetailsEncoding(descRaw, e);
    DetailsShape(e);
  }

  lemma DetailsEncoding(descRaw: string, e: string)
    requires e == EscapeHtml(Str(descRaw))
    ensures var r := ReplaceAll(e, '\n', LineBreak);
      r == Encode(descRaw, BreakEntity) && Unescape(r) == ReplaceAll(descRaw, '\n', LineBreak)
  {
    assert e == EscapeHtmlText(descRaw);
    EscapeHtmlIsEncode(descRaw);
    DetailsDecode(descRaw);
    BreaksAfterEscape(descRaw);
  }

  lemma DetailsShape(e: string)
    requires '<' !in e && '"' !in e && '\'' !in e
    ensures var r := ReplaceAll(e, '\n', LineBreak);
      '\n' !in r && '"' !in r && '\'' !in r && MarksCopies(r, LineBreak)
  {
    ReplaceAllKeepsAbsent(e, '\n', LineBreak, '"');
    ReplaceAllKeepsAbsent(e, '\n', LineBreak, '\'');
    ReplaceAllMarks(e, '\n', LineBreak);
  }

  /** A description holding the text "<br>" shows that text: only a line
      feed becomes a break. */
  lemma LiteralBreakStaysText()
    ensures DetailsText("<br>") == "&lt;br&gt;"
    ensures DetailsText("\n") == LineBreak
  {
    var lt, b, r, gt := ['<'], ['b'], ['r'], ['>'];
    EncodeOne('<', BreakEntity);
    EncodeOne('b', BreakEntity);
    EncodeOne('r', BreakEntity);
    EncodeOne('>', BreakEntity);
    EncodeOne('\n', BreakEntity);
    EncodeConcat(lt, b, BreakEntity);
    EncodeConcat(lt + b, r, BreakEntity);
    EncodeConcat(lt + b + r, gt, BreakEntity);
    assert lt + b + r + gt == "<br>";
    assert Lt + "b" + "r" + Gt == "&lt;br&gt;";
    ghost var x := "<br>";
    assert Encode(x, BreakEntity) == "&lt;br&gt;";
    assert DetailsText(x) == Encode(x, BreakEntity);
  }

  /** What the expanded description turns one character into: a line feed
      becomes the break tag, every other character its `escapeHtml` entity. */
  function BreakEntity(c: char): string {
    if c == '\n' then LineBreak else HtmlEntity(c)
  }

  /** Turning line feeds into breaks after escaping is encoding each
      character by `BreakEntity`. */
  lemma {:induction false} BreaksAfterEscape(s: string)
    ensures ReplaceAll(Encode(s, HtmlEntity), '\n', LineBreak) == Encode(s, BreakEntity)
  {
    if s != [] {
      var e, rest := HtmlEntity(s[0]), Encode(s[1..], HtmlEntity);
      assert Encode(s, HtmlEntity) == e + rest;
      ReplaceAllConcat(e, rest, '\n', LineBreak);
      BreaksAfterEscape(s[1..]);
      if s[0] == '\n' {
        assert e == "\n";
        ReplaceAllChar('\n', '\n', LineBreak);
      } else {
        HtmlEntityNoLineFeed(s[0]);
        ReplaceAllAbsent(e, '\n', LineBreak);
      }
    }
  }

  /** Escaping and then turning line feeds into breaks reads back as the raw
      text with its line feeds turned into breaks: a line feed escapes to
      itself, and the break tag holds no '&'. */
  lemma {:induction false} DetailsDecode(s: string)
    ensures Unescape(ReplaceAll(Encode(s, HtmlEntity), '\n', LineBreak)) == ReplaceAll(s, '\n', LineBreak)
  {
    if s != [] {
      var e, rest := HtmlEntity(s[0]), Encode(s[1..], HtmlEntity);
      assert Encode(s, HtmlEntity) == e + rest;
      ReplaceAllConcat(e, rest, '\n', LineBreak);
      DetailsDecode(s[1..]);
      var u := ReplaceAll(rest, '\n', LineBreak);
      var tail := ReplaceAll(s[1..], '\n', LineBreak);
      assert Unescape(u) == tail;
      if s[0] == '\n' {
        assert e == "\n";
        ReplaceAllChar('\n', '\n', LineBreak);
        assert ReplaceAll(e, '\n', LineBreak) == LineBreak;
        UnescapePlain(LineBreak, u);
        assert ReplaceAll(s, '\n', LineBreak) == LineBreak + tail;
      } else {
        HtmlEntityNoLineFeed(s[0]);
        ReplaceAllAbsent(e, '\n', LineBreak);
        UnescapeHtmlEntity(s[0], u);
        assert ReplaceAll(s, '\n', LineBreak) == [s[0]] + tail;
      }
    }
  }

  /** The badge texts: `safeText` of the first six amenities. */
  function Badges(items: seq<Value>): (r: seq<string>)
    ensures |r| == Min(MaxBadges, |items|)
    ensures forall i :: 0 <= i < |r| ==> r[i] == SafeText(items[i], "")
  {
    var top := items[..Min(MaxBadges, |items|)];
    seq(|top|, i requires 0 <= i < |top| => SafeText(top[i], ""))
  }

  /** The number on the "+N more" badge: the amenities without a badge of their own. */
  function MoreCount(items: seq<Value>): (m: nat)
    ensures |Badges(items)| + m == |items|
    ensures m > 0 <==> |items| > MaxBadges
  {
    Max(0, |items| - Min(MaxBadges, |items|))
  }

  /** `getListingCode(listing)` without its markup. The template throws a
      `TypeError` when the parsed amenities are not an array, since it slices
      and maps them. */
  function CardOf(l: Listing, favs: set<string>, parse: string -> Parsed): (r: Rendered<Card>)
    ensures r.Done? <==> ParseAmenities(l, parse).Arr?
  {
    var amenities := ParseAmenities(l, parse);
    if !amenities.Arr? then TypeError
    else
      var id := GetListingId(l);
      var name := SafeText(l.name, Untitled);
      var price := SafeText(l.price, NoPrice);
      var descRaw := SafeText(l.description, "");
      var hostName := SafeText(l.hostName, UnknownHost);
      var items := amenities.items;
      var link := LinkOf(l);
      var linkAttr := EscapeAttr(Str(link));
      Done(Card(
        id,
        EscapeAttr(Str(id)),
        id in favs,
        name,
        price,
        hostName,
        EscapeAttr(PickThumbnail(l)),
        EscapeAttr(Str(name)),
        EscapeAttr(Str(Caption(price, hostName))),
        EscapeAttr(PickHostPhoto(l)),
        if descRaw != "" then EscapeHtml(Str(ShortDesc(Str(descRaw), SummaryLength))) else NoDescription,
        if descRaw != "" then DetailsText(descRaw) else NoDescription,
        Badges(items),
        MoreCount(items),
        if linkAttr != "" then linkAttr else "#",
        link != "",
        if link != "" then OpenLabel else NoLinkLabel))
  }

  /** The card carries the listing's identifier, in an attribute that a
      entity decoding turns back into it, and shows whether it is a favourite. */
  lemma CardIdentity(l: Listing, favs: set<string>, parse: string -> Parsed)
    requires ParseAmenities(l, parse).Arr?
    ensures var c := CardOf(l, favs, parse).value;
            && c.id == GetListingId(l)
            && Unescape(c.idAttr) == GetListingId(l)
            && (c.isFavorite <==> GetListingId(l) in favs)
  {
  }

  /** At most six amenity badges, the first ones in order, and a "+N more"
      count that makes up the rest. */
  lemma CardBadges(l: Listing, favs: set<string>, parse: string -> Parsed)
    requires ParseAmenities(l, parse).Arr?
    ensures var c := CardOf(l, favs, parse).value;
            var items := ParseAmenities(l, parse).items;
            && |c.badges| == Min(MaxBadges, |items|)
            && (forall i :: 0 <= i < |c.badges| ==> c.badges[i] == SafeText(items[i], ""))
            && |c.badges| + c.moreCount == |items|
            && (c.moreCount > 0 <==> |items| > MaxBadges)
  {
  }

  /** The attribute texts decode to the picture choices, the fallback-filled
      name and the caption. */
  lemma CardAttributes(l: Listing, favs: set<string>, parse: string -> Parsed)
    requires ParseAmenities(l, parse).Arr?
    ensures var c := CardOf(l, favs, parse).value;
            && c.name == SafeText(l.name, Untitled)
            && c.price == SafeText(l.price, NoPrice)
            && c.hostName == SafeText(l.hostName, UnknownHost)
            && Unescape(c.imageAttr) == ToString(PickThumbnail(l))
            && Unescape(c.hostImageAttr) == ToString(PickHostPhoto(l))
            && Unescape(c.titleAttr) == c.name
            && Unescape(c.captionAttr) == Caption(c.price, c.hostName)
  {
  }

  /** The link: degraded exactly when there is no link text, and otherwise
      an attribute that decodes to that text. */
  lemma CardLink(l: Listing, favs: set<string>, parse: string -> Parsed)
    requires ParseAmenities(l, parse).Arr?
    ensures var c := CardOf(l, favs, parse).value;
            && (LinkOf(l) == "" ==> c.href == "#")
            && (LinkOf(l) == "" <==> !c.linkEnabled)
            && c.linkLabel == (if LinkOf(l) == "" then NoLinkLabel else OpenLabel)
            && (LinkOf(l) != "" ==> Unescape(c.href) == LinkOf(l))
  {
  }

  /** Seven amenities give six badges and a "+1 more" badge. */
  lemma SevenAmenities(l: Listing, favs: set<string>, parse: string -> Parsed)
    requires ParseAmenities(l, parse).Arr? && |ParseAmenities(l, parse).items| == 7
    ensures |CardOf(l, favs, parse).value.badges| == 6 && CardOf(l, favs, parse).value.moreCount == 1
  {
    CardBadges(l, favs, parse);
  }

  /** The description parts of a card: both show the fixed sentence when the
      description is empty; otherwise the summary decodes to `shortDesc` of it,
      holds no tag or quote and only entity ampersands, and the details are
      the description encoded by `BreakEntity`: they decode to the description with each line feed turned into a
      break tag, and hold no raw line feeds or quotes. */
  lemma CardDescription(l: Listing, favs: set<string>, parse: string -> Parsed)
    requires ParseAmenities(l, parse).Arr?
    ensures var c := CardOf(l, favs, parse).value;
            var descRaw := SafeText(l.description, "");
            && (descRaw == "" ==> c.summary == NoDescription && c.details == NoDescription)
            && (descRaw != "" ==>
                  && Unescape(c.summary) == ShortDesc(Str(descRaw), SummaryLength)
                  && '<' !in c.summary && '>' !in c.summary && '"' !in c.summary && '\'' !in c.summary
                  && AmpersandsStartEntities(c.summary, HtmlEntities)
                  && c.details == Encode(descRaw, BreakEntity)
                  && Unescape(c.details) == ReplaceAll(descRaw, '\n', LineBreak)
                  && '\n' !in c.details && '"' !in c.details && '\'' !in c.details
                  && MarksCopies(c.details, LineBreak))
  {
  }

  /** An array element without fields (a number, a string, a boolean or an
      array reads every field as `undefined`) still renders: identifier
      "unknown__nohost", the fallback texts and pictures, no badges, no link. */
  lemma FieldlessListing(l: Listing, favs: set<string>, parse: string -> Parsed)
    requires l.id.Undefined? && l.name.Undefined? && l.description.Undefined? && l.price.Undefined?
    requires l.hostId.Undefined? && l.hostName.Undefined? && l.amenities.Undefined? && l.listingUrl.Undefined?
    ensures CardOf(l, favs, parse).Done?
    ensures GetListingId(l) == "unknown__nohost"
    ensures var c := CardOf(l, favs, parse).value;
            && c.name == Untitled && c.price == NoPrice && c.hostName == UnknownHost
            && c.summary == NoDescription && c.details == NoDescription
            && c.badges == [] && c.moreCount == 0
            && !c.linkEnabled && c.href == "#"
  {
    FieldlessId(l);
    assert ParseAmenities(l, parse) == Arr([]);
    CardBadges(l, favs, parse);
    CardAttributes(l, favs, parse);
    CardDescription(l, favs, parse);
    MissingLink(l, favs, parse);
  }

  /** A listing without a link gets the degraded link: "#", disabled, and the
      "No link available" label. */
  lemma MissingLink(l: Listing, favs: set<string>, parse: string -> Parsed)
    requires ParseAmenities(l, parse).Arr? && !Truthy(l.listingUrl)
    ensures var c := CardOf(l, favs, parse).value;
            c.href == "#" && !c.linkEnabled && c.linkLabel == NoLinkLabel
  {
  }

  /** An empty array as `listing_url` is truthy, yet `String([])` is "", so
      it too gets the degraded link. */
  lemma EmptyArrayLink(l: Listing, favs: set<string>, parse: string -> Parsed)
    requires ParseAmenities(l, parse).Arr? && l.listingUrl == Arr([])
    ensures Truthy(l.listingUrl)
    ensures var c := CardOf(l, favs, parse).value;
            c.href == "#" && !c.linkEnabled && c.linkLabel == NoLinkLabel
  {
    assert LinkOf(l) == Join([], ",");
  }

  /** `xs.map(f)` for an `f` that may throw: the results in order, or the
      error of the first element that throws. */
  function MapRendered<A, B>(f: A -> Rendered<B>, xs: seq<A>): (r: Rendered<seq<B>>)
    ensures r.Done? <==> forall i :: 0 <= i < |xs| ==> f(xs[i]).Done?
    ensures r.Done? ==> |r.value| == |xs| && forall i :: 0 <= i < |xs| ==> f(xs[i]) == Done(r.value[i])
  {
    if xs == [] then Done([])
    else
      var first := f(xs[0]);
      var rest := MapRendered(f, xs[1..]);
      assert forall i :: 0 < i < |xs| ==> xs[i] == xs[1..][i - 1];
      if first.TypeError? || rest.TypeError? then TypeError
      else Done([first.value] + rest.value)
  }

  /** `listings.map(getListingCode)`: the cards of all listings in order, or
      the `TypeError` of the first card that throws. */
  function CardsOf(ls: seq<Listing>, favs: set<string>, parse: string -> Parsed): (r: Rendered<seq<Card>>)
    ensures r.Done? <==> forall i :: 0 <= i < |ls| ==> CardOf(ls[i], favs, parse).Done?
    ensures r.Done? ==> |r.value| == |ls| && forall i :: 0 <= i < |ls| ==> CardOf(ls[i], favs, parse) == Done(r.value[i])
  {
    MapRendered(l => CardOf(l, favs, parse), ls)
  }
}
