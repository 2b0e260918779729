/**
 * The few PHP value rules the course player depends on: the shapes a
 * `get_post_meta(..., true)` result can take, PHP's `empty()` on them, and
 * the truthiness of a string used as a condition (`if ( $thumbnail_url )`).
 */
module Php {

  datatype Option<+T> = None | Some(value: T)

  /**
   * A single post-meta value as WordPress hands it back.  `Null` stands for
   * `null`/`false` (and a missing key); an array is reduced to what the
   * player looks at: whether it has a non-null `url` entry (and its string
   * value) and how many other entries it holds.
   */
  datatype MetaValue =
    | Null
    | Bool(b: bool)
    | Int(n: int)
    | Str(s: string)
    | Arr(url: Option<string>, otherEntries: nat)

  /** PHP's truthiness of a string: only "" and "0" are false. */
  predicate Truthy(s: string)
  {
    s != "" && s != "0"
  }

  /** PHP's `empty()` on a meta value. */
  predicate IsEmpty(v: MetaValue)
  {
    match v
    case Null => true
    case Bool(b) => !b
    case Int(n) => n == 0
    case Str(s) => !Truthy(s)
    case Arr(url, others) => url.None? && others == 0
  }

}
