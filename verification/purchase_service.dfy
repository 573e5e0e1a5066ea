/** The ad-free entitlement (PhotoPurge/Service/PurchaseService.swift). StoreKit's answers
    (the product lookup, the purchase outcome, the current entitlements and the stream of
    transaction updates) are parameters; `storedAdFree` stands for the UserDefaults flag. */
module PurchaseService {
  import opened Media

  const removeAdsProductID: string := "panto.PhotoPurger.removeAds"

  /** StoreKit's verification wrapper: the payload and whether its signature checked out. */
  datatype VerificationResult<T> = Unverified(payload: T) | Verified(payload: T)

  datatype Transaction = Transaction(productID: string)

  datatype Product = Product(id: string)

  /** What `product.purchase()` came back with; `Failed` is the thrown error. */
  datatype PurchaseOutcome =
    | Success(verification: VerificationResult<Transaction>)
    | UserCancelled
    | Pending
    | Failed

  /** `checkVerified`: the payload of a verified result, nothing for an unverified one. */
  function CheckVerified<T>(result: VerificationResult<T>): (safe: Option<T>)
    ensures safe.Some? <==> result.Verified?
    ensures safe.Some? ==> safe.value == result.payload
  {
    match result
    case Unverified(_) => None
    case Verified(t) => Some(t)
  }

  /** The flag the `updateEntitlements` loop holds after the records of `entitlements`:
      it starts false and is set by a verified record for the remove-ads product. */
  function AdFreeAfter(entitlements: seq<VerificationResult<Transaction>>): bool
    decreases |entitlements|
  {
    if entitlements == [] then false
    else
      var r := entitlements[|entitlements| - 1];
      AdFreeAfter(entitlements[..|entitlements| - 1]) || (r.Verified? && r.payload.productID == removeAdsProductID)
  }

  /** Independent statement of the entitlement: some verified record is for the remove-ads product. */
  predicate Grants(r: VerificationResult<Transaction>) {
    CheckVerified(r).Some? && CheckVerified(r).value.productID == removeAdsProductID
  }

  lemma {:induction false} AdFreeIffGrantingRecord(entitlements: seq<VerificationResult<Transaction>>)
    ensures AdFreeAfter(entitlements) <==> exists i :: 0 <= i < |entitlements| && Grants(entitlements[i])
    decreases |entitlements|
  {
    if entitlements != [] {
      var p := entitlements[..|entitlements| - 1];
      AdFreeIffGrantingRecord(p);
      if exists i :: 0 <= i < |p| && Grants(p[i]) {
        var i :| 0 <= i < |p| && Grants(p[i]);
        assert entitlements[i] == p[i];
      }
      if exists i :: 0 <= i < |entitlements| && Grants(entitlements[i]) {
        var i :| 0 <= i < |entitlements| && Grants(entitlements[i]);
        if i < |p| {
          assert Grants(p[i]);
        }
      }
    }
  }

  /** No entitlements, or only unverified ones, never make the app ad-free. */
  lemma UnverifiedNeverGrants(entitlements: seq<VerificationResult<Transaction>>)
    requires forall i :: 0 <= i < |entitlements| ==> entitlements[i].Unverified?
    ensures !AdFreeAfter(entitlements)
  {
    AdFreeIffGrantingRecord(entitlements);
  }

  /** The flag is only ever set to true, so the order of the records and their repetitions
      do not matter: two lists with the same records give the same answer. */
  lemma AdFreeIgnoresOrderAndDuplicates(a: seq<VerificationResult<Transaction>>, b: seq<VerificationResult<Transaction>>)
    requires forall r :: r in a <==> r in b
    ensures AdFreeAfter(a) == AdFreeAfter(b)
  {
    AdFreeIffGrantingRecord(a);
    AdFreeIffGrantingRecord(b);
    if AdFreeAfter(a) {
      var i :| 0 <= i < |a| && Grants(a[i]);
      assert a[i] in a;
      assert a[i] in b;
      var j :| 0 <= j < |b| && b[j] == a[i];
    }
    if AdFreeAfter(b) {
      var j :| 0 <= j < |b| && Grants(b[j]);
      assert b[j] in b;
      assert b[j] in a;
      var i :| 0 <= i < |a| && a[i] == b[j];
    }
  }

  class PurchaseService {
    var isAdFree: bool
    var removeAdsProduct: Option<Product>
    var storedAdFree: bool

    /** Starts from the persisted flag with no product loaded. */
    constructor(storedAdFree: bool)
      ensures isAdFree == storedAdFree && this.storedAdFree == storedAdFree && removeAdsProduct.None?
    {
      isAdFree := storedAdFree;
      removeAdsProduct := None;
      this.storedAdFree := storedAdFree;
    }

    /** `loadProducts`: the first product of a lookup that answered; a lookup that threw
        (`None`) leaves the product as it was. */
    method LoadProducts(products: Option<seq<Product>>)
      modifies this`removeAdsProduct
      ensures products.None? ==> removeAdsProduct == old(removeAdsProduct)
      ensures products.Some? ==> removeAdsProduct == (if products.value == [] then None else Some(products.value[0]))
    {
      if products.Some? {
        removeAdsProduct := if products.value == [] then None else Some(products.value[0]);
      }
    }

    /** Recomputes the flag from the current entitlements and persists it. */
    method UpdateEntitlements(entitlements: seq<VerificationResult<Transaction>>)
      modifies this`isAdFree, this`storedAdFree
      ensures isAdFree == AdFreeAfter(entitlements) && storedAdFree == isAdFree
    {
      var adFree := false;
      for i := 0 to |entitlements|
        invariant adFree == AdFreeAfter(entitlements[..i])
      {
        assert entitlements[..i + 1][..i] == entitlements[..i];
        var result := entitlements[i];
        if result.Verified? {
          var transaction := result.payload;
          if transaction.productID == removeAdsProductID {
            adFree := true;
          }
        }
      }
      assert entitlements[..|entitlements|] == entitlements;
      isAdFree := adFree;
      storedAdFree := adFree;
    }

    /** Without a loaded product nothing happens. A verified successful purchase recomputes
        the entitlement and hands back the transaction to finish; an unverified one, a
        cancellation, a pending purchase or a thrown error change nothing. */
    method BuyRemoveAds(outcome: PurchaseOutcome, entitlements: seq<VerificationResult<Transaction>>)
      returns (finished: Option<Transaction>)
      modifies this`isAdFree, this`storedAdFree
      ensures removeAdsProduct.None? ==> finished.None? && isAdFree == old(isAdFree) && storedAdFree == old(storedAdFree)
      ensures removeAdsProduct.Some? && outcome.Success? && outcome.verification.Verified? ==>
                finished == Some(outcome.verification.payload) &&
                isAdFree == AdFreeAfter(entitlements) && storedAdFree == isAdFree
      ensures !(outcome.Success? && outcome.verification.Verified?) ==>
                finished.None? && isAdFree == old(isAdFree) && storedAdFree == old(storedAdFree)
    {
      finished := None;
      if removeAdsProduct.None? {
        return;
      }
      match outcome {
        case Success(verificationResult) =>
          var transaction := CheckVerified(verificationResult);
          if transaction.Some? {
            UpdateEntitlements(entitlements);
            finished := transaction;
          }
        case UserCancelled =>
        case Pending =>
        case Failed =>
      }
    }

    /** `restorePurchases` is a fresh entitlement check and nothing more. */
    method RestorePurchases(entitlements: seq<VerificationResult<Transaction>>)
      modifies this`isAdFree, this`storedAdFree
      ensures isAdFree == AdFreeAfter(entitlements) && storedAdFree == isAdFree
    {
      UpdateEntitlements(entitlements);
    }

    /** One element of `Transaction.updates`: a verified update triggers an entitlement check
        and is finished; an unverified one is ignored. */
    method HandleTransactionUpdate(update: VerificationResult<Transaction>, entitlements: seq<VerificationResult<Transaction>>)
      returns (finished: Option<Transaction>)
      modifies this`isAdFree, this`storedAdFree
      ensures update.Verified? ==> finished == Some(update.payload) &&
                                   isAdFree == AdFreeAfter(entitlements) && storedAdFree == isAdFree
      ensures update.Unverified? ==> finished.None? && isAdFree == old(isAdFree) && storedAdFree == old(storedAdFree)
    {
      finished := None;
      if update.Verified? {
        UpdateEntitlements(entitlements);
        finished := Some(update.payload);
      }
    }
  }
}
