/** The cart kept under the `'cart'` key of local storage by the product page
    and read back by the checkout page: an array of line objects with the
    fields `id`, `title`, `price`, `image` and `quantity`. */
module CartStorage {
  import opened Outcomes
  import opened Storage
  import opened CartLines

  const CartKey := "cart"

  /** The object `JSON.stringify` writes for a line. */
  function EncodeLine(l: CartLine): Json
  {
    JObj(map[
      "id" := JStr(l.id),
      "title" := JStr(l.title),
      "price" := JNum(l.price),
      "image" := JStr(l.image),
      "quantity" := JNum(l.quantity as real)])
  }

  predicate IsStr(value: Json, key: string)
  {
    value.JObj? && key in value.fields && value.fields[key].JStr?
  }

  predicate IsNum(value: Json, key: string)
  {
    value.JObj? && key in value.fields && value.fields[key].JNum?
  }

  /** A stored value is read back as a line when it has the five fields with
      the right kinds, the quantity being a whole number. */
  function DecodeLine(value: Json): (r: Option<CartLine>)
    ensures r.Some? ==> EncodeLine(r.value).fields.Keys == {"id", "title", "price", "image", "quantity"}
    ensures r.Some? ==> value.JObj? && forall key :: key in EncodeLine(r.value).fields ==>
              key in value.fields && value.fields[key] == EncodeLine(r.value).fields[key]
  {
    if IsStr(value, "id") && IsStr(value, "title") && IsNum(value, "price") && IsStr(value, "image")
       && IsNum(value, "quantity") && value.fields["quantity"].n == value.fields["quantity"].n.Floor as real
    then
      Some(CartLine(
        value.fields["id"].s,
        value.fields["title"].s,
        value.fields["price"].n,
        value.fields["image"].s,
        value.fields["quantity"].n.Floor))
    else None
  }

  function EncodeLines(lines: seq<CartLine>): (r: seq<Json>)
    ensures |r| == |lines|
    ensures forall i :: 0 <= i < |lines| ==> r[i] == EncodeLine(lines[i])
  {
    if lines == [] then [] else [EncodeLine(lines[0])] + EncodeLines(lines[1..])
  }

  /** `JSON.stringify(cart)`: the array of line objects. */
  function EncodeCart(lines: seq<CartLine>): Json
  {
    JArr(EncodeLines(lines))
  }

  function DecodeLines(elems: seq<Json>): (r: Option<seq<CartLine>>)
    ensures r.Some? ==> |r.value| == |elems|
    ensures r.Some? <==> forall i :: 0 <= i < |elems| ==> DecodeLine(elems[i]).Some?
  {
    if elems == [] then Some([])
    else
      match (DecodeLine(elems[0]), DecodeLines(elems[1..]))
      case (Some(l), Some(rest)) => Some([l] + rest)
      case _ => None
  }

  /** The stored value as a cart; anything but an array of lines is not one. */
  function DecodeCart(value: Json): (r: Option<seq<CartLine>>)
    ensures r.Some? ==> value.JArr? && |r.value| == |value.elems|
  {
    if value.JArr? then DecodeLines(value.elems) else None
  }

  /** `JSON.parse(localStorage.getItem('cart') || '[]')`: a missing key reads as the empty cart. */
  function ReadCart(stored: Option<Json>): (r: Option<seq<CartLine>>)
    ensures stored.None? ==> r == Some([])
    ensures stored.Some? ==> r == DecodeCart(stored.value)
  {
    match stored
    case None => Some([])
    case Some(value) => DecodeCart(value)
  }

  lemma DecodeEncodeLine(l: CartLine)
    ensures DecodeLine(EncodeLine(l)) == Some(l)
  {
    assert (l.quantity as real).Floor == l.quantity;
  }

  /** Whatever cart is written is read back unchanged. */
  lemma {:induction false} DecodeEncodeLines(lines: seq<CartLine>)
    ensures DecodeLines(EncodeLines(lines)) == Some(lines)
  {
    if lines != [] {
      DecodeEncodeLine(lines[0]);
      DecodeEncodeLines(lines[1..]);
      assert EncodeLines(lines)[1..] == EncodeLines(lines[1..]);
      assert [lines[0]] + lines[1..] == lines;
    }
  }

  lemma CartRoundTrip(lines: seq<CartLine>)
    ensures DecodeCart(EncodeCart(lines)) == Some(lines)
    ensures ReadCart(Some(EncodeCart(lines))) == Some(lines)
  {
    DecodeEncodeLines(lines);
  }
}
