/**
 * The part of the Joi validation library the schemas use: object schemas with
 * required, optional and forbidden keys, string/number/boolean/email type
 * checks, an allow-list of strings, nested objects and a `when` condition on a
 * sibling key. An object schema rejects keys it does not list.
 */
module Joi {
  import opened Json

  /** `.required()`, the default (optional), `.forbidden()`. */
  datatype Presence = Optional | Required | Forbidden

  /** The type check a key's value must pass when it is present. */
  datatype Check =
    | Any                              // Joi.any()
    | String                           // Joi.string(): a string, not empty
    | StringValid(allowed: set<string>) // Joi.string().valid(...)
    | Email                            // Joi.string().email()
    | Number                           // Joi.number(): a finite number within the safe-integer range
    | Boolean                          // Joi.boolean()
    | Object(keys: Keys)               // Joi.object({...})

  /** What a schema says about one key. */
  datatype Rule =
    | Rule(presence: Presence, check: Check)
      /** Joi.when(ref, { is: lit, then, otherwise }): `thenRule` applies when the sibling `ref` is the string `literal`. */
    | When(ref: string, literal: string, thenRule: Rule, otherwise: Rule)

  type Keys = map<string, Rule>

  /** The email check for schemas that have no email rule: it is never consulted. */
  const NoEmail: string -> bool := s => false

  /** The rule for `key` inside object `d` passes (the key may be absent). */
  predicate Accepts(r: Rule, d: Doc, key: string, isEmail: string -> bool)
    decreases r
  {
    match r
    case When(ref, lit, t, o) =>
      if ref in d && d[ref] == Str(lit) then Accepts(t, d, key, isEmail) else Accepts(o, d, key, isEmail)
    case Rule(p, c) =>
      match p
      case Optional => key in d ==> Conforms(c, d[key], isEmail)
      case Required => key in d && Conforms(c, d[key], isEmail)
      case Forbidden => key !in d
  }

  /** Value `v` passes type check `c`. */
  predicate Conforms(c: Check, v: Value, isEmail: string -> bool)
    decreases c
  {
    match c
    case Any => true
    case String => IsNonEmptyString(v)
    case StringValid(allowed) => v.Str? && v.s in allowed
    case Email => IsNonEmptyString(v) && isEmail(v.s)
    case Number => IsSafeNumber(v)
    case Boolean => v.Bool?
    case Object(keys) =>
      && v.Obj?
      && (forall k :: k in v.fields ==> k in keys)
      && (forall k :: k in keys ==> Accepts(keys[k], v.fields, k, isEmail))
  }

  /** `schema.validate(body)` reports no error. */
  predicate Validates(keys: Keys, body: Doc, isEmail: string -> bool)
  {
    Conforms(Object(keys), Obj(body), isEmail)
  }

  /** A body that passes an object schema has no key the schema does not list. */
  lemma ValidatesOnlyListedKeys(keys: Keys, body: Doc, isEmail: string -> bool)
    requires Validates(keys, body, isEmail)
    ensures body.Keys <= keys.Keys
  {
  }

  /** A key whose rule is `Rule(Required, c)` is present in a valid body, and its value passes `c`. */
  lemma RequiredKeyPresent(keys: Keys, body: Doc, isEmail: string -> bool, k: string)
    requires Validates(keys, body, isEmail)
    requires k in keys && keys[k].Rule? && keys[k].presence == Required
    ensures k in body && Conforms(keys[k].check, body[k], isEmail)
  {
    assert Accepts(keys[k], body, k, isEmail);
  }
}
