/** Which products, and how many of each, a permission covers. */
module Coverage {
  import opened Prelude

  type ProductId = nat

  /** A document of the accepted batch; it stands for every confirmed product when it names none. */
  datatype Photo = Photo(product: Option<ProductId>, quantity: Option<nat>)

  function Min(a: nat, b: nat): nat { if a <= b then a else b }
  function Max(a: nat, b: nat): nat { if a <= b then b else a }

  /** Quantities are positive, as the tables' checks demand. */
  predicate Positive(confirmed: map<ProductId, nat>, photos: seq<Photo>) {
    (forall p :: p in confirmed ==> confirmed[p] > 0) &&
    forall d :: d in photos && d.quantity.Some? ==> d.quantity.value > 0
  }

  /** How much of a product confirmed `limit` times one document stands for. */
  function Offer(d: Photo, p: ProductId, limit: nat): nat {
    match d.product
    case None => limit
    case Some(q) => if q != p then 0 else Min(limit, if d.quantity.Some? then d.quantity.value else limit)
  }

  predicate Concerns(d: Photo, p: ProductId) { d.product in {None, Some(p)} }

  /** The largest offer of any document, zero without one. */
  function Best(photos: seq<Photo>, p: ProductId, limit: nat): nat {
    if photos == [] then 0 else Max(Best(photos[..|photos| - 1], p, limit), Offer(photos[|photos| - 1], p, limit))
  }

  /** The coverage without any fold over intermediate maps. */
  function Covered(confirmed: map<ProductId, nat>, photos: seq<Photo>): map<ProductId, nat> {
    map p | p in confirmed && Best(photos, p, confirmed[p]) > 0 :: Best(photos, p, confirmed[p])
  }

  lemma BestOfOneMore(photos: seq<Photo>, d: Photo, p: ProductId, limit: nat)
    ensures Best(photos + [d], p, limit) == Max(Best(photos, p, limit), Offer(d, p, limit)) &&
      Best(photos, p, limit) <= limit
  {
    assert (photos + [d])[..|photos|] == photos;
    BestIsBounded(photos, p, limit);
  }

  /** What one more document does to the coverage. */
  lemma OneMorePhoto(confirmed: map<ProductId, nat>, photos: seq<Photo>, d: Photo)
    requires Positive(confirmed, photos + [d])
    ensures d.product.None? ==> Covered(confirmed, photos + [d]) == Covered(confirmed, photos) + confirmed
    ensures d.product.Some? && d.product.value !in confirmed ==>
      Covered(confirmed, photos + [d]) == Covered(confirmed, photos)
    ensures d.product.Some? && d.product.value in confirmed ==>
      var p, before := d.product.value, Covered(confirmed, photos);
      var requested := if d.quantity.Some? then d.quantity.value else confirmed[p];
      Covered(confirmed, photos + [d]) ==
        before[p := Min(confirmed[p], Max(if p in before then before[p] else 0, requested))]
  {
    forall p | p in confirmed
      ensures Best(photos + [d], p, confirmed[p]) == Max(Best(photos, p, confirmed[p]), Offer(d, p, confirmed[p]))
      ensures Best(photos, p, confirmed[p]) <= confirmed[p]
    {
      BestOfOneMore(photos, d, p, confirmed[p]);
    }
    assert d.quantity.Some? ==> d in photos + [d] && d.quantity.value > 0;
    hide Best;
  }

  /** The service's fold: documents in order, overwriting what is covered so far. */
  method CoverageFor(confirmed: map<ProductId, nat>, photos: seq<Photo>) returns (covered: map<ProductId, nat>)
    requires Positive(confirmed, photos)
    ensures covered == Covered(confirmed, photos)
  {
    covered := map[];
    for i := 0 to |photos|
      invariant covered == Covered(confirmed, photos[..i])
    {
      var d := photos[i];
      assert photos[..i + 1] == photos[..i] + [d];
      hide Covered;
      if d.product.Some? {
        var p := d.product.value;
        var confirmedQuantity := if p in confirmed then confirmed[p] else 0;
        if confirmedQuantity != 0 {
          var requested := if d.quantity.Some? then d.quantity.value else confirmedQuantity;
          covered := covered[p := Min(confirmedQuantity, Max(if p in covered then covered[p] else 0, requested))];
        }
      } else {
        covered := covered + confirmed;
      }
      OneMorePhoto(confirmed, photos[..i], d);
    }
    assert photos[..|photos|] == photos;
  }

  lemma BestIsBounded(photos: seq<Photo>, p: ProductId, limit: nat)
    ensures Best(photos, p, limit) <= limit
  {
  }

  /** The best offer bounds every offer and is one of them: nothing else about the list matters. */
  lemma {:induction false} BestIsTheLargestOffer(photos: seq<Photo>, p: ProductId, limit: nat)
    ensures forall d :: d in photos ==> Offer(d, p, limit) <= Best(photos, p, limit)
    ensures Best(photos, p, limit) == 0 || exists d :: d in photos && Offer(d, p, limit) == Best(photos, p, limit)
  {
    if photos != [] {
      var front, last := photos[..|photos| - 1], photos[|photos| - 1];
      assert photos == front + [last];
      BestIsTheLargestOffer(front, p, limit);
      assert last in photos;
    }
  }

  /**
   * The closed form: the whole confirmed quantity under a document for everything, else the largest
   * request up to it.
   */
  lemma CoverageIsExact(confirmed: map<ProductId, nat>, photos: seq<Photo>, p: ProductId)
    requires Positive(confirmed, photos)
    ensures p in Covered(confirmed, photos) <==> p in confirmed && exists d :: d in photos && Concerns(d, p)
    ensures p in Covered(confirmed, photos) ==> 1 <= Covered(confirmed, photos)[p] <= confirmed[p]
    ensures p in Covered(confirmed, photos) && (exists d :: d in photos && d.product == None) ==>
      Covered(confirmed, photos)[p] == confirmed[p]
    ensures p in Covered(confirmed, photos) && (forall d :: d in photos ==> d.product != None) ==>
      (exists d :: d in photos && d.product == Some(p) && Covered(confirmed, photos)[p] == Offer(d, p, confirmed[p])) &&
      forall d :: d in photos && d.product == Some(p) ==> Offer(d, p, confirmed[p]) <= Covered(confirmed, photos)[p]
  {
    if p in confirmed {
      BestIsTheLargestOffer(photos, p, confirmed[p]);
      BestIsBounded(photos, p, confirmed[p]);
      if p in Covered(confirmed, photos) {
        var d :| d in photos && Offer(d, p, confirmed[p]) == Best(photos, p, confirmed[p]);
        assert Concerns(d, p);
      }
    }
  }

  /** Document order and repetition do not matter. */
  lemma OrderDoesNotMatter(confirmed: map<ProductId, nat>, photos: seq<Photo>, others: seq<Photo>)
    requires forall d :: d in photos <==> d in others
    ensures Covered(confirmed, photos) == Covered(confirmed, others)
  {
    forall p | p in confirmed ensures Best(photos, p, confirmed[p]) == Best(others, p, confirmed[p]) {
      BestIsTheLargestOffer(photos, p, confirmed[p]);
      BestIsTheLargestOffer(others, p, confirmed[p]);
    }
  }

  /** Adding documents never shrinks what is covered. */
  lemma MoreDocumentsCoverMore(confirmed: map<ProductId, nat>, photos: seq<Photo>, more: seq<Photo>, p: ProductId)
    requires forall d :: d in photos ==> d in more
    requires p in Covered(confirmed, photos)
    ensures p in Covered(confirmed, more) && Covered(confirmed, photos)[p] <= Covered(confirmed, more)[p]
  {
    BestIsTheLargestOffer(photos, p, confirmed[p]);
    BestIsTheLargestOffer(more, p, confirmed[p]);
  }
}
