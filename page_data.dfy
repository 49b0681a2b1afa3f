/**
 * The page builder's data types: a component has an id, a type, an `order`
 * and a loosely typed data record whose text-bearing fields hold either a
 * plain string or a per-language map.
 */
module PageData {
  import opened Base
  import opened LangText

  datatype ComponentType =
    | Hero | Text | Image | Gallery | Features | Testimonials | Cta | Spacer
    | Unknown(name: string)

  /** One image of a gallery component. */
  datatype GalleryImage = GalleryImage(id: string, url: string, alt: string, caption: string)

  /** A value stored under one key of a component's data record. */
  datatype Value =
    | Str(s: string)
    | Langs(m: LangMap)
    | Num(n: int)
    | Flag(b: bool)
    | Images(images: seq<GalleryImage>)
    | Pad(top: int, right: int, bottom: int, left: int)

  type ComponentData = map<string, Value>

  datatype PageComponent = PageComponent(id: string, ctype: ComponentType, order: int, data: ComponentData)

  /** JavaScript truthiness of a possibly absent data field. */
  predicate Truthy(v: Option<Value>) {
    match v
    case None => false
    case Some(Str(s)) => s != ""
    case Some(Num(n)) => n != 0
    case Some(Flag(b)) => b
    case Some(_) => true
  }

  /** `data[key]`, `undefined` when absent. */
  function Field(data: ComponentData, key: string): (r: Option<Value>)
    ensures r.Some? <==> key in data
    ensures r.Some? ==> r.value == data[key]
  {
    if key in data then Some(data[key]) else None
  }

  /** `a || b` on two data fields. */
  function OrElse(a: Option<Value>, b: Option<Value>): (r: Option<Value>)
    ensures Truthy(a) ==> r == a
    ensures !Truthy(a) ==> r == b
  {
    if Truthy(a) then a else b
  }
}
