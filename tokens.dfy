/**
 * The JSON values the provider reads and stores, as far as the flattener and the
 * lookups can tell them apart (Newtonsoft's JToken, JValue and JTokenType).
 */
module Tokens {
  import opened Wrappers

  /** The JTokenType of a JValue. */
  datatype Kind =
    | Comment | Integer | Float | String | Boolean | Null | Undefined
    | Date | Raw | Bytes | Guid | Uri | TimeSpan

  /** A token held in the provider's dictionary: a JValue with its type and the
      string its underlying value renders to (None for a null value), or any
      token that is not a JValue (object, array, property, constructor). */
  datatype Token = JValue(kind: Kind, value: Option<string>) | JContainer

  /** The kinds a lookup accepts. */
  predicate Available(k: Kind) {
    k in {Boolean, Date, Float, Guid, Integer, Null, Raw, String, Uri}
  }

  /** A parsed document: an object with its properties in document order, an array
      (its elements are never visited), a scalar with its kind and the
      invariant-culture text the parser renders it to, or an integer literal outside
      the 64-bit range, which the parser holds as a `BigInteger`. */
  datatype Json = Object(props: seq<Prop>) | Array | Scalar(kind: Kind, text: string) | BigInteger(text: string)
  datatype Prop = Prop(name: string, value: Json)

  /** One row of the bulk fetch: the document id and the document body. */
  datatype Row = Row(id: string, doc: Json)

  /** The kinds a JSON text parses into; the others come only from code. */
  predicate Parsed(k: Kind) {
    k in {Integer, Float, String, Boolean, Null, Undefined, Date}
  }

  /** A document as the parser produces it: every scalar in it is of a parsed kind. */
  predicate WellFormed(j: Json)
    decreases j
  {
    match j
    case Scalar(k, _) => Parsed(k)
    case Array => true
    case BigInteger(_) => true
    case Object(ps) => forall i :: 0 <= i < |ps| ==> WellFormed(ps[i].value)
  }

  /** The values `Value<string>()` cannot convert and throws `InvalidCastException`
      for: an array, and a `BigInteger`, which is not `IConvertible`. */
  predicate Unconvertible(j: Json) {
    j.Array? || j.BigInteger?
  }

  /** `Value<string>()` of a scalar: null for a null or undefined value, else its text. */
  function Render(j: Json): Option<string>
    requires j.Scalar?
  {
    if j.kind == Null || j.kind == Undefined then None else Some(j.text)
  }

  /** The token the flattener stores for a scalar: the rendered string converted
      back to a token, which is always a JValue of kind String. */
  function Stored(j: Json): Token
    requires j.Scalar?
  {
    JValue(String, Render(j))
  }
}
