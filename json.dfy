/**
  The slice of System.Text.Json's `JsonElement` that the response parser
  uses. Parsing text into a `Json` value (`JsonSerializer.Deserialize`) is
  not modelled; callers receive it as a function. Every accessor returns
  `None` exactly where the .NET accessor throws.
*/
module JsonModel {
  import opened Wrappers

  /**
    A JSON value. A number keeps only what `GetInt32` can see: `Some(n)` when
    its literal is a plain integer `n` (no fraction, no exponent), `None`
    otherwise. Objects are maps; which of several duplicate keys wins is the
    deserializer's business.
  */
  datatype Json =
    | JNull
    | JBool(b: bool)
    | JNumber(asInteger: Option<int>)
    | JString(s: string)
    | JArray(items: seq<Json>)
    | JObject(properties: map<string, Json>)

  const Int32Min: int := -0x8000_0000
  const Int32Max: int := 0x7FFF_FFFF

  /**
    `TryGetProperty(name, out v)`: throws on a non-object (`None`), yields
    `Some(None)` for a missing key and `Some(Some(v))` for a present one.
  */
  function TryGetProperty(e: Json, name: string): (r: Option<Option<Json>>)
    ensures r.None? <==> !e.JObject?
    ensures r == Some(None) <==> e.JObject? && name !in e.properties
    ensures r.Some? && r.value.Some? ==> e.JObject? && name in e.properties && r.value.value == e.properties[name]
  {
    match e
    case JObject(props) => if name in props then Some(Some(props[name])) else Some(None)
    case _ => None
  }

  /** `GetProperty(name)`: throws on a non-object or a missing key. */
  function GetProperty(e: Json, name: string): (r: Option<Json>)
    ensures r.Some? <==> e.JObject? && name in e.properties
    ensures r.Some? ==> r.value == e.properties[name]
  {
    match e
    case JObject(props) => if name in props then Some(props[name]) else None
    case _ => None
  }

  /** `GetString()`: a JSON null reads as C# null (`Some(None)`); anything but a string or null throws. */
  function GetString(e: Json): (r: Option<Option<string>>)
    ensures r == Some(None) <==> e.JNull?
    ensures (exists s :: r == Some(Some(s))) <==> e.JString?
    ensures e.JString? ==> r == Some(Some(e.s))
  {
    match e
    case JString(s) => Some(Some(s))
    case JNull => Some(None)
    case _ => None
  }

  /** `e.GetString() ?? fallback`. */
  function StringOr(e: Json, fallback: string): (r: Option<string>)
    ensures r.Some? <==> (e.JString? || e.JNull?)
    ensures e.JString? ==> r == Some(e.s)
    ensures e.JNull? ==> r == Some(fallback)
  {
    match GetString(e)
    case None => None
    case Some(v) => Some(if v.Some? then v.value else fallback)
  }

  /** `GetInt32()`: throws unless the value is an integer literal that fits in 32 bits. */
  function GetInt32(e: Json): (r: Option<int>)
    ensures r.Some? <==> e.JNumber? && e.asInteger.Some? && Int32Min <= e.asInteger.value <= Int32Max
    ensures r.Some? ==> r.value == e.asInteger.value
  {
    match e
    case JNumber(Some(n)) => if Int32Min <= n <= Int32Max then Some(n) else None
    case _ => None
  }

  /** `EnumerateArray()`: throws on anything but an array. */
  function EnumerateArray(e: Json): (r: Option<seq<Json>>)
    ensures r.Some? <==> e.JArray?
    ensures r.Some? ==> r.value == e.items
  {
    match e
    case JArray(items) => Some(items)
    case _ => None
  }
}
