/** The records of app/types/index.ts, and the abstract outcome of the one
    HTTP exchange the page performs. JavaScript numbers are modelled as
    `real`; an optional field (`pumpSize?: number`) or a nullable one
    (`Listing | null`) is an `Option`. */
module ListingTypes {

  datatype Option<+T> = None | Some(value: T)

  /** The nested `categoryV2` record of a listing. */
  datatype Category = Category(name: string)

  /** `interface Listing`. */
  datatype Listing = Listing(
    id: string,
    listingTitle: string,
    itemBrand: string,
    itemAge: real,
    sellingPrice: real,
    listingDescription: string,
    imageUrls: seq<string>,
    pumpSize: Option<real>,
    tankSize: Option<real>,
    mileage: Option<real>,
    categoryV2: Option<Category>)

  /** The `result` member of `interface ApiResponse`. */
  datatype ApiResult = ApiResult(listing: Option<Listing>)

  /** A parsed response body. The page reads the same JSON value once as an
      `ApiError` (`message?`) and once as an `ApiResponse` (`result`,
      `error?`) through unchecked casts, so every one of those members may be
      absent: this record holds the union of their fields. */
  datatype ResponseBody = ResponseBody(
    message: Option<string>,
    error: Option<string>,
    result: Option<ApiResult>)

  /** What a `catch` clause receives: an `Error` instance with its `message`,
      or any other thrown value. */
  datatype Thrown = ErrorObject(message: string) | OtherValue

  /** The outcome of `fetch` followed by `response.json()`: either `fetch`
      threw, or a response arrived with its `ok` flag, its numeric `status`
      and its body, which is `None` when `response.json()` threw (or the body
      was the JSON literal `null`). */
  datatype Exchange =
    | Threw(thrown: Thrown)
    | Responded(ok: bool, status: nat, body: Option<ResponseBody>)

  /** JavaScript truthiness of a string value that may be absent. */
  predicate Truthy(s: Option<string>)
  {
    s.Some? && s.value != ""
  }
}
