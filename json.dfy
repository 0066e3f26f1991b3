/** JSON values as a request body parses to, and the JavaScript rules the
    handlers apply to them: destructuring a property out of the body and
    testing it for truthiness. */
module Json {

  /** A parsed JSON value. Numbers are exact reals, and -0 and 0 behave
      alike for everything modelled here. The parser's infinite results for
      out-of-range literals and strings holding lone surrogates are not
      values of this type. */
  datatype Json =
    | JNull
    | JBool(b: bool)
    | JNumber(n: real)
    | JString(s: string)
    | JArray(elems: seq<Json>)
    | JObject(members: map<string, Json>)

  /** What `const { key } = body` binds: `undefined` when the body has no
      such own property, otherwise the property's value. */
  datatype Prop = Undefined | Present(value: Json)

  /** Destructuring throws a TypeError when the body is `null`; any other
      JSON value (object, array, string, number, boolean) can be
      destructured. */
  predicate Destructurable(body: Json) {
    !body.JNull?
  }

  /** The value bound by `const { key } = body` for a destructurable body.
      Only an object has own properties with these keys; looking one up on
      an array, string, number or boolean gives `undefined`. */
  function Get(body: Json, key: string): (p: Prop)
    ensures p.Present? <==> body.JObject? && key in body.members
    ensures p.Present? ==> p.value == body.members[key]
  {
    match body
    case JObject(m) => if key in m then Present(m[key]) else Undefined
    case _ => Undefined
  }

  /** JavaScript truthiness (`!!p`): `undefined`, `null`, `false`, `0`
      and `""` are falsy; every other value, including every array and
      object, is truthy. */
  predicate Truthy(p: Prop) {
    match p
    case Undefined => false
    case Present(v) =>
      match v
      case JNull => false
      case JBool(b) => b
      case JNumber(n) => n != 0.0
      case JString(s) => s != ""
      case JArray(_) => true
      case JObject(_) => true
  }

  /** `typeof p === "string"`. */
  predicate IsString(p: Prop) {
    p.Present? && p.value.JString?
  }

  /** `!p || typeof p !== "string"` is false. */
  predicate ValidString(p: Prop) {
    Truthy(p) && IsString(p)
  }

  /** `p || null`: a truthy value unchanged, anything falsy replaced by null. */
  function OrNull(p: Prop): (v: Json)
    ensures Truthy(p) ==> Present(v) == p
    ensures !Truthy(p) ==> v == JNull
  {
    if Truthy(p) then p.value else JNull
  }

  /** The falsy values are exactly the five JavaScript lists. */
  lemma FalsyValues(p: Prop)
    ensures !Truthy(p) <==>
              p == Undefined || p == Present(JNull) || p == Present(JBool(false))
              || p == Present(JNumber(0.0)) || p == Present(JString(""))
  {
  }

  /** `!p || typeof p !== "string"` rejects exactly what is not a non-empty
      string. */
  lemma ValidStringIff(p: Prop)
    ensures ValidString(p) <==> p.Present? && p.value.JString? && p.value.s != ""
  {
  }
}
