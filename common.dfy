/**
 Values shared by the GeoTrainr back end: the JSON values an image-search
 response carries, the outcome of a call into code outside the model, and the
 Python exceptions the core lets escape.
 */
module Common {

  /** A number inside a JSON document. It is carried through unchanged and never computed on. */
  type Num(==, !new)

  /** `item['geometry']['coordinates']`: a JSON list, `[lon, lat]` as the provider sends it. */
  type Coordinate = seq<Num>

  /** The body of a downloaded thumbnail. */
  type Bytes(==, !new)

  datatype Option<+T> = None | Some(value: T)

  /** What a call into code outside the model did: returned a value, or raised. */
  datatype Call<+T> = Returned(value: T) | Raised

  /** The Python exceptions that escape the modelled functions. */
  datatype Error =
    | IndexError    // a list index past the end
    | ValueError    // unpacking a slice that is too short
    | KeyError      // a missing dictionary key
    | RequestError  // the image-search request or its JSON decoding raised
    | ImageError    // an image decoding error other than "unidentified image"

  datatype Result<+T> = Ok(value: T) | Err(error: Error)

  /** The value of the key `thumb_2048_url` in an image record. */
  datatype UrlField = Absent | Null | Url(url: string)

  /**
   An image record of the search response: its thumbnail field and
   `item['geometry']['coordinates']`, `None` when either key is missing.
   */
  datatype Item = Item(thumb: UrlField, coordinates: Option<Coordinate>)

  /** Python truthiness of a JSON list: it is truthy iff it is not empty. */
  predicate Truthy(c: Coordinate) {
    |c| > 0
  }

  function Min(a: int, b: int): int {
    if a <= b then a else b
  }
}
