/** A listing record as the fetched JSON delivers it, and the pure choices
    js/main.js makes from one: its identifier, its pictures and its amenities. */
module Listings {
  import opened JsValues
  import opened Strings

  /** The fields of a listing the browser reads; any of them may be absent
      (`Undefined`) or of an unexpected type. */
  datatype Listing = Listing(
    id: Value,
    name: Value,
    description: Value,
    price: Value,
    hostId: Value,
    hostName: Value,
    thumbnailUrl: Value,
    pictureUrl: Value,
    hostThumbnailUrl: Value,
    hostPictureUrl: Value,
    amenities: Value,
    listingUrl: Value)

  /** The picture shown when a listing has none. */
  const FallbackImg: string := "https://a0.muscache.com/pictures/b7c2a199-4c17-4ba6-b81d-751719d2dac6.jpg"

  /** The avatar shown when a host has none. */
  const HostPlaceholder: string := "https://via.placeholder.com/64?text=Host"

  /** The separator of a composite identifier. */
  const IdSeparator: string := "__"

  /** An `id` field counts as present when it is truthy or the number 0. */
  predicate IdPresent(id: Value) {
    Truthy(id) || id == Num(0)
  }

  /** `getListingId(listing)`: `String(id)` when the id is present, else the
      stringified name and host id joined by "__", with "unknown" and "nohost"
      standing in for falsy ones. */
  function GetListingId(l: Listing): (r: string)
    ensures IdPresent(l.id) ==> r == ToString(l.id)
    ensures l.id.Num? ==> ParseInt(r) == l.id.n
    ensures l.id.Str? && l.id.s != "" ==> r == l.id.s
    ensures !IdPresent(l.id) ==>
      var name := if Truthy(l.name) then ToString(l.name) else "unknown";
      var host := if Truthy(l.hostId) then ToString(l.hostId) else "nohost";
      && |r| == |name| + 2 + |host|
      && r[..|name|] == name
      && OccursAt(r, IdSeparator, |name|)
      && r[|name| + 2..] == host
  {
    if IdPresent(l.id) then
      ToString(l.id)
    else
      var name := if Truthy(l.name) then ToString(l.name) else "unknown";
      var host := if Truthy(l.hostId) then ToString(l.hostId) else "nohost";
      var r := name + IdSeparator + host;
      assert r[|name|..|name| + 2] == IdSeparator;
      r
  }

  /** A present id decides the identifier on its own: the other fields do not matter. */
  lemma IdIgnoresOtherFields(l: Listing, m: Listing)
    requires IdPresent(l.id) && m.id == l.id
    ensures GetListingId(l) == GetListingId(m)
  {
  }

  /** Listings without a present id and with the same name and host id share
      their identifier, whatever their other fields hold. */
  lemma CompositeIdIgnoresOtherFields(l: Listing, m: Listing)
    requires !IdPresent(l.id) && !IdPresent(m.id)
    requires l.name == m.name && l.hostId == m.hostId
    ensures GetListingId(l) == GetListingId(m)
  {
  }

  /** The composite identifier is not injective: "__" may occur in the fields. */
  lemma CompositeIdCollision()
    ensures var l := Listing(Undefined, Str("a__b"), Undefined, Undefined, Str("c"),
                             Undefined, Undefined, Undefined, Undefined, Undefined, Undefined, Undefined);
            var m := l.(name := Str("a"), hostId := Str("b__c"));
            l != m && GetListingId(l) == GetListingId(m) == "a__b__c"
  {
    var l := Listing(Undefined, Str("a__b"), Undefined, Undefined, Str("c"),
                     Undefined, Undefined, Undefined, Undefined, Undefined, Undefined, Undefined);
    var m := l.(name := Str("a"), hostId := Str("b__c"));
    assert l.name != m.name;
    assert GetListingId(l) == "a__b" + "__" + "c";
    assert GetListingId(m) == "a" + "__" + "b__c";
  }

  /** Without an id, a name or a host id, the identifier is "unknown__nohost". */
  lemma FieldlessId(l: Listing)
    requires l.id.Undefined? && l.name.Undefined? && l.hostId.Undefined?
    ensures GetListingId(l) == "unknown__nohost"
  {
    var u, n := "unknown", "nohost";
    assert GetListingId(l) == u + IdSeparator + n;
    assert u + IdSeparator + n == "unknown__nohost";
  }

  /** `pickThumbnail(listing)`: the first truthy of the thumbnail and the
      picture, else the fallback picture; the result is always truthy. */
  function PickThumbnail(l: Listing): (r: Value)
    ensures Truthy(r)
    ensures Truthy(l.thumbnailUrl) ==> r == l.thumbnailUrl
    ensures !Truthy(l.thumbnailUrl) && Truthy(l.pictureUrl) ==> r == l.pictureUrl
    ensures !Truthy(l.thumbnailUrl) && !Truthy(l.pictureUrl) ==> r == Str(FallbackImg)
  {
    if Truthy(l.thumbnailUrl) then l.thumbnailUrl
    else if Truthy(l.pictureUrl) then l.pictureUrl
    else Str(FallbackImg)
  }

  /** `pickHostPhoto(listing)`: the same choice over the host's two pictures,
      falling back to the placeholder avatar. */
  function PickHostPhoto(l: Listing): (r: Value)
    ensures Truthy(r)
    ensures Truthy(l.hostThumbnailUrl) ==> r == l.hostThumbnailUrl
    ensures !Truthy(l.hostThumbnailUrl) && Truthy(l.hostPictureUrl) ==> r == l.hostPictureUrl
    ensures !Truthy(l.hostThumbnailUrl) && !Truthy(l.hostPictureUrl) ==> r == Str(HostPlaceholder)
  {
    if Truthy(l.hostThumbnailUrl) then l.hostThumbnailUrl
    else if Truthy(l.hostPictureUrl) then l.hostPictureUrl
    else Str(HostPlaceholder)
  }

  /** `parseAmenities(listing)`: an array is used as it is, a string is handed
      to `JSON.parse` (`parse` here), which may yield any value; a parse error
      and every other type give the empty array. */
  function ParseAmenities(l: Listing, parse: string -> Parsed): (r: Value)
    ensures l.amenities.Arr? ==> r == l.amenities
    ensures !l.amenities.Str? ==> r.Arr?
    ensures l.amenities.Str? && parse(l.amenities.s).Json? ==> r == parse(l.amenities.s).value
    ensures l.amenities.Str? && parse(l.amenities.s).Malformed? ==> r == Arr([])
  {
    match l.amenities
    case Arr(_) => l.amenities
    case Str(s) => (match parse(s) case Malformed => Arr([]) case Json(v) => v)
    case _ => Arr([])
  }
}
