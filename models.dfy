/**
 The value records shared by the flash-sale and login services: the sale
 status enumeration, the product, the state snapshot handed to readers, the
 outcome of a purchase attempt and the user record, plus the Option and
 Result wrappers that stand for `null` and for a thrown error.
 */
module Models {

  /** `None` stands for the source's `null` (no sale record yet, no such user, no user id given). */
  datatype Option<+T> = None | Some(value: T)

  /** The outcome of an operation that throws an `Error` with a message on failure. */
  datatype Result<+T> = Success(value: T) | Failure(error: string)

  /**
   The five statuses a reader can be shown. `PurchaseSuccess` is used by the
   sale service although the exported enumeration object lacks it; in the
   source it is therefore a value distinct from all four others, which a fifth
   constructor captures.
   */
  datatype SaleStatus = Upcoming | Active | Ended | SoldOut | PurchaseSuccess

  /** The one product on sale; `totalStock` is the configured quantity. */
  datatype Product = Product(id: string, name: string, description: string, imageUrl: string, totalStock: int)

  /** What a status read returns: the product, the stock left, the status and the window. */
  datatype FlashSaleState = FlashSaleState(product: Product, currentStock: int, status: SaleStatus, startTime: int, endTime: int)

  /** What a purchase attempt returns; `userHasPurchased` is false unless set. */
  datatype PurchaseResult = PurchaseResult(success: bool, message: string, userHasPurchased: bool)

  /** A logged-in user. */
  datatype User = User(id: string, username: string)
}
