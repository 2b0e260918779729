/**
 * The purchase area shown to visitors without access: the button text,
 * the price to display and the attribute that tells the LMS's buy-button
 * script what to do.  Prices are the raw `price` / `sale_price` meta
 * strings; `isNumericZero` is PHP 8's `$s == '0'` for a non-empty string
 * (true exactly for numeric strings whose value is zero, such as "0.00").
 */
module Purchase {
  import opened Php

  /** What clicking the button does. */
  datatype ButtonAction =
    | PurchasedCourse(coursePostId: int)   // data-purchased-course="<id>"
    | GuestCheckout(coursePostId: int)     // data-guest="<id>"
    | LoginModal                           // data-authorization-modal="login"

  /** Which raw price string is handed to the LMS's price formatter, if any. */
  datatype PriceShown = NoPrice | SalePrice(raw: string) | RegularPrice(raw: string)

  datatype Offer = Offer(buttonText: string, price: PriceShown, action: ButtonAction)

  /** `empty( $course_price ) || $course_price == '0'`. */
  predicate IsFree(price: string, isNumericZero: string -> bool)
  {
    !Truthy(price) || isNumericZero(price)
  }

  /** Signed-in buyers purchase; guests check out as guests when allowed, otherwise log in. */
  function ButtonActionFor(coursePostId: int, isLoggedIn: bool, guestCheckout: bool): (a: ButtonAction)
    ensures isLoggedIn ==> a == PurchasedCourse(coursePostId)
    ensures !isLoggedIn && guestCheckout ==> a == GuestCheckout(coursePostId)
    ensures !isLoggedIn && !guestCheckout ==> a == LoginModal
  {
    if isLoggedIn then PurchasedCourse(coursePostId)
    else if guestCheckout then GuestCheckout(coursePostId)
    else LoginModal
  }

  /** The price shown on a paid course: the sale price while the sale is active, else the regular price. */
  function PriceFor(price: string, salePrice: string, saleActive: bool, isNumericZero: string -> bool): (p: PriceShown)
    ensures IsFree(price, isNumericZero) ==> p == NoPrice
    ensures p.SalePrice? <==> !IsFree(price, isNumericZero) && Truthy(salePrice) && saleActive
    ensures p.SalePrice? ==> p.raw == salePrice
    ensures p.RegularPrice? ==> p.raw == price && Truthy(price)
    ensures !IsFree(price, isNumericZero) && !(Truthy(salePrice) && saleActive) ==> p == RegularPrice(price)
  {
    if IsFree(price, isNumericZero) then NoPrice
    else if Truthy(salePrice) && saleActive then SalePrice(salePrice)
    else if Truthy(price) then RegularPrice(price)
    else NoPrice
  }

  /** The whole purchase area. */
  function PurchaseOffer(coursePostId: int, price: string, salePrice: string, saleActive: bool,
                         isLoggedIn: bool, guestCheckout: bool, isNumericZero: string -> bool): (o: Offer)
    ensures o.buttonText == "Enroll for Free" <==> IsFree(price, isNumericZero)
    ensures o.buttonText == "Get Course" <==> !IsFree(price, isNumericZero)
    ensures o.price == PriceFor(price, salePrice, saleActive, isNumericZero)
    ensures o.action == ButtonActionFor(coursePostId, isLoggedIn, guestCheckout)
  {
    Offer(if IsFree(price, isNumericZero) then "Enroll for Free" else "Get Course",
          PriceFor(price, salePrice, saleActive, isNumericZero),
          ButtonActionFor(coursePostId, isLoggedIn, guestCheckout))
  }

  // ---------------------------------------------------------------------
  // Properties of the offer
  // ---------------------------------------------------------------------

  /**
   * A free course never shows a price, and a paid course always shows one:
   * the template's final "regular price" fallback is never skipped.
   */
  lemma PriceShownExactlyWhenPaid(price: string, salePrice: string, saleActive: bool, isNumericZero: string -> bool)
    ensures PriceFor(price, salePrice, saleActive, isNumericZero) == NoPrice <==> IsFree(price, isNumericZero)
  {
  }

  /** A sale price that is set but not active is not shown; the regular price is. */
  lemma InactiveSaleShowsRegular(price: string, salePrice: string, isNumericZero: string -> bool)
    requires !IsFree(price, isNumericZero)
    ensures PriceFor(price, salePrice, false, isNumericZero) == RegularPrice(price)
  {
  }

}
