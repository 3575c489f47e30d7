/** The admin console's offers list: add, save the offer being edited,
    delete. As for products, the held list changes only after the store
    confirms. Offer ids are numbers the store assigns; the delete button
    passes the id as text and the list is filtered on the id's text. */
module AdminOffers {
  import opened Outcomes
  import opened Strings
  import opened Lists

  datatype Offer = Offer(id: int, title: string, description: string, image: Option<string>, createdAt: string)

  datatype OfferForm = OfferForm(title: string, description: string, image: string)

  const EmptyOfferForm := OfferForm("", "", "")

  /** The row sent to the store: an empty image is sent as null. */
  datatype OfferRow = OfferRow(title: string, description: string, image: Option<string>)

  /** The guard of `saveOffer`: title and description are required, the image is not. */
  predicate OfferRefused(form: OfferForm)
  {
    form.title == "" || form.description == ""
  }

  function OfferInsertRow(form: OfferForm): (row: OfferRow)
    ensures row.title == form.title && row.description == form.description
    ensures row.image.None? <==> form.image == ""
    ensures row.image.Some? ==> row.image.value == form.image
  {
    OfferRow(form.title, form.description, if form.image == "" then None else Some(form.image))
  }

  function OfferIdIs(id: int): Offer -> bool
  {
    (o: Offer) => o.id == id
  }

  function Always(row: Offer): Offer -> Offer
  {
    _ => row
  }

  /** `offers.map(offer => offer.id === id ? data : offer)`. */
  function ReplaceOffer(offers: seq<Offer>, id: int, row: Offer): seq<Offer>
  {
    MapWhere(offers, OfferIdIs(id), Always(row))
  }

  /** The delete filter: `offer.id.toString() !== offerId`. */
  function IdTextIsNot(offerId: string): Offer -> bool
  {
    (o: Offer) => IntToString(o.id) != offerId
  }

  function WithoutOffer(offers: seq<Offer>, offerId: string): seq<Offer>
  {
    Filter(offers, IdTextIsNot(offerId))
  }

  /** Replacing changes exactly the offers with that id, into the returned row. */
  lemma ReplaceOfferSpec(offers: seq<Offer>, id: int, row: Offer)
    ensures var r := ReplaceOffer(offers, id, row);
            && |r| == |offers|
            && (forall i :: 0 <= i < |offers| && offers[i].id == id ==> r[i] == row)
            && (forall i :: 0 <= i < |offers| && offers[i].id != id ==> r[i] == offers[i])
  {
  }

  /** The button passes `offer.id.toString()`: comparing texts is comparing ids,
      so exactly the offers with that id go and the rest keep their order. */
  lemma DeleteOfferById(offers: seq<Offer>, id: int)
    ensures var r := WithoutOffer(offers, IntToString(id));
            && IsSubsequence(r, offers)
            && (forall o :: o in r <==> o in offers && o.id != id)
  {
    FilterIsSubsequence(offers, IdTextIsNot(IntToString(id)));
    forall o: Offer
      ensures IdTextIsNot(IntToString(id))(o) <==> o.id != id
    {
      IntToStringInjective(o.id, id);
    }
  }

  class OffersAdmin {
    var offers: seq<Offer>
    var editingOffer: Option<Offer>
    var newOffer: OfferForm

    constructor (loaded: seq<Offer>)
      ensures offers == loaded && editingOffer == None && newOffer == EmptyOfferForm
    {
      offers := loaded;
      editingOffer := None;
      newOffer := EmptyOfferForm;
    }

    method EditForm(form: OfferForm)
      modifies this
      ensures newOffer == form && offers == old(offers) && editingOffer == old(editingOffer)
    {
      newOffer := form;
    }

    method SetEditing(offer: Option<Offer>)
      modifies this
      ensures editingOffer == offer && offers == old(offers) && newOffer == old(newOffer)
    {
      editingOffer := offer;
    }

    /** `saveOffer`: a refused form sends nothing; the returned row goes first
        and the form is cleared on success; an error changes nothing. */
    method SaveOffer(insert: Response<Offer>) returns (sent: Option<OfferRow>)
      modifies this
      ensures editingOffer == old(editingOffer)
      ensures OfferRefused(old(newOffer)) ==> sent == None && offers == old(offers) && newOffer == old(newOffer)
      ensures !OfferRefused(old(newOffer)) ==> sent == Some(OfferInsertRow(old(newOffer)))
      ensures !OfferRefused(old(newOffer)) && insert.Ok? ==>
                offers == [insert.row] + old(offers) && newOffer == EmptyOfferForm
      ensures insert.Err? ==> offers == old(offers) && newOffer == old(newOffer)
    {
      if OfferRefused(newOffer) {
        return None;
      }
      sent := Some(OfferInsertRow(newOffer));
      if insert.Ok? {
        offers := [insert.row] + offers;
        newOffer := EmptyOfferForm;
      }
    }

    /** `updateOffer`: nothing without an offer being edited; on success the
        offers with its id become the returned row and the dialog closes. */
    method UpdateOffer(update: Response<Offer>) returns (sent: Option<Offer>)
      modifies this
      ensures newOffer == old(newOffer)
      ensures sent == old(editingOffer)
      ensures old(editingOffer).None? ==> offers == old(offers) && editingOffer == None
      ensures old(editingOffer).Some? && update.Ok? ==>
                offers == ReplaceOffer(old(offers), old(editingOffer).value.id, update.row) && editingOffer == None
      ensures update.Err? ==> offers == old(offers) && editingOffer == old(editingOffer)
    {
      sent := editingOffer;
      if editingOffer.None? {
        return;
      }
      if update.Ok? {
        offers := ReplaceOffer(offers, editingOffer.value.id, update.row);
        editingOffer := None;
      }
    }

    /** `deleteOffer`: after the store confirms, drop the offers whose id reads as `offerId`. */
    method DeleteOffer(offerId: string, outcome: Ack)
      modifies this
      ensures newOffer == old(newOffer) && editingOffer == old(editingOffer)
      ensures outcome.Done? ==> offers == WithoutOffer(old(offers), offerId)
      ensures outcome.Failed? ==> offers == old(offers)
    {
      if outcome.Done? {
        offers := WithoutOffer(offers, offerId);
      }
    }
  }
}
