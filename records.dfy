/** The rows of the tables the admin pages and the blog read and write: `blog`,
    `services`, `products`, `delivery_zones` and `comments`. A nullable column
    is an Option. A numeric column holds the decimal text the forms edit. */
module Records {
  import opened Common

  datatype BlogRow = BlogRow(
    id: int,
    title: string,
    excerpt: Option<string>,
    date: string,
    category: string,
    info: Option<seq<string>>,
    imageUrls: Option<seq<string>>)

  datatype ServiceRow = ServiceRow(
    id: int,
    nameService: string,
    description: Option<string>,
    shortDescription: Option<string>,
    isFeatured: bool,
    details: Option<seq<string>>,
    imageUrls: Option<seq<string>>)

  datatype ProductRow = ProductRow(
    id: int,
    name: string,
    description: Option<string>,
    shortDescription: Option<string>,
    price: Option<string>,
    category: Option<string>,
    stock: Option<string>,
    sku: Option<string>,
    isFeatured: bool,
    imageUrl: Option<string>)

  datatype DeliveryZoneRow = DeliveryZoneRow(
    id: int,
    province: Option<string>,
    area: Option<string>,
    cost: Option<string>,
    estimatedTime: Option<string>)

  datatype CommentRow = CommentRow(id: int, blogId: int, name: string, comment: string)

  /** `x || ''` on a nullable text column. */
  function OrEmpty(x: Option<string>): (r: string)
    ensures x.None? ==> r == ""
    ensures x.Some? ==> r == x.value
  {
    if x.Some? then x.value else ""
  }

  /** `x || null` on a text the forms send: the empty string is stored as
      null. */
  function EmptyToNull(x: string): (r: Option<string>)
    ensures r.None? <==> x == ""
    ensures r.Some? ==> r.value == x
  {
    if x == "" then None else Some(x)
  }

  /** `list || []` on a nullable array column. */
  function OrNone<T>(x: Option<seq<T>>): (r: seq<T>)
    ensures x.None? ==> r == []
    ensures x.Some? ==> r == x.value
  {
    if x.Some? then x.value else []
  }

  /** Storing a form text and reading it back into the form gives the text
      again. */
  lemma EmptyToNullRoundTrip(x: string)
    ensures OrEmpty(EmptyToNull(x)) == x
  {
  }
}
