/** The tag census as the analytics handler writes it: `tagCounts` is a
    plain object literal, so a lookup of a key it does not own falls through
    to `Object.prototype`. Two lower-case tokens name properties found
    there: `constructor` (the `Object` function) and `__proto__` (an
    accessor whose setter ignores non-object values). The other inherited
    names (`toString`, `valueOf`, `hasOwnProperty`, ...) hold an upper-case
    letter, and the census only ever sees lower-cased tokens, so the model
    covers keys without an upper-case ASCII letter. */
module Census {
  import Common
  import Stats
  import Text

  /** The values a property of `tagCounts` can hold or inherit. */
  datatype JsValue =
    | Undefined
    | Num(n: int)
    | Str(s: string)
    | ObjectFunction
    | ObjectPrototype
    | NotANumber

  type JsObject = map<string, JsValue>

  /** `obj[key]` for a key without an upper-case ASCII letter, on an object
      whose prototype is `Object.prototype`: the only such keys it inherits
      are `constructor` and `__proto__`. */
  function Get(obj: JsObject, key: string): JsValue {
    if key == "__proto__" then ObjectPrototype
    else if key in obj then obj[key]
    else if key == "constructor" then ObjectFunction
    else Undefined
  }

  /** `obj[key] = v` for a non-object `v`: assigning `__proto__` does
      nothing. */
  function Set(obj: JsObject, key: string, v: JsValue): JsObject {
    if key == "__proto__" then obj else obj[key := v]
  }

  /** `v || 0`. */
  function OrZero(v: JsValue): JsValue {
    match v
    case Undefined => Num(0)
    case NotANumber => Num(0)
    case Num(n) => Num(n)
    case Str(s) => if s == "" then Num(0) else v
    case ObjectFunction => v
    case ObjectPrototype => v
  }

  /** `v + 1`: numbers add, anything else is turned into a string and `"1"`
      is appended. */
  function PlusOne(v: JsValue): JsValue {
    match v
    case Num(n) => Num(n + 1)
    case Str(s) => Str(s + "1")
    case ObjectFunction => Str("function Object() { [native code] }1")
    case ObjectPrototype => Str("[object Object]1")
    case Undefined => NotANumber
    case NotANumber => NotANumber
  }

  /** `tagCounts[t] = (tagCounts[t] || 0) + 1`, as written. */
  function JsBump(obj: JsObject, t: string): JsObject {
    Set(obj, t, PlusOne(OrZero(Get(obj, t))))
  }

  /** The census as written: the object left by bumping every token in turn. */
  function JsCounts(toks: seq<string>): JsObject {
    if toks == [] then map[] else JsBump(JsCounts(toks[..|toks| - 1]), toks[|toks| - 1])
  }

  /** A key without an upper-case ASCII letter, the keys `Get` models. */
  predicate LowerKey(t: string) {
    forall i :: 0 <= i < |t| ==> !Text.IsUpperAscii(t[i])
  }

  /** A lower-case token that names no property of `Object.prototype`. */
  predicate OwnSafe(t: string) {
    LowerKey(t) && t != "constructor" && t != "__proto__"
  }

  /** As long as every token is lower-case and is neither `constructor` nor
      `__proto__`, the census as written holds the intended counts, as
      numbers. */
  lemma {:induction false} JsCountsAgree(toks: seq<string>)
    requires forall i :: 0 <= i < |toks| ==> OwnSafe(toks[i])
    ensures JsCounts(toks).Keys == Stats.Counts(toks).Keys
    ensures forall t :: t in JsCounts(toks) ==> JsCounts(toks)[t] == Num(Stats.Counts(toks)[t])
  {
    if toks != [] {
      var init, t := toks[..|toks| - 1], toks[|toks| - 1];
      JsCountsAgree(init);
      assert OwnSafe(t);
    }
  }

  /** A single image tagged `constructor` gets the count
      `"function Object() { [native code] }1"`, a string, where the intended
      census counts 1. */
  lemma ConstructorTagMiscounted()
    ensures JsCounts(["constructor"]) == map["constructor" := Str("function Object() { [native code] }1")]
    ensures Stats.Counts(["constructor"]) == map["constructor" := 1]
  {
    assert ["constructor"][..0] == [];
  }

  /** A tag `__proto__` is never counted at all, however often it occurs,
      while the intended census counts it whenever it occurs. */
  lemma {:induction false} ProtoTagDropped(toks: seq<string>)
    ensures "__proto__" !in JsCounts(toks)
    ensures "__proto__" in toks ==> "__proto__" in Stats.Counts(toks)
  {
    if toks != [] {
      ProtoTagDropped(toks[..|toks| - 1]);
    }
    Stats.CountsAreMultiplicities(toks);
  }

  /** The analytics pass feeds the census only lower-case tokens, so over
      stores whose tags never give `constructor` or `__proto__` the census
      as written holds the intended counts. */
  lemma PassCensusAgrees(names: seq<string>, store: Common.Store)
    requires forall t :: t in Stats.AllTokens(names, store) ==> t != "constructor" && t != "__proto__"
    ensures var toks := Stats.AllTokens(names, store);
            && JsCounts(toks).Keys == Stats.Counts(toks).Keys
            && forall t :: t in JsCounts(toks) ==> JsCounts(toks)[t] == Num(Stats.Counts(toks)[t])
  {
    var toks := Stats.AllTokens(names, store);
    Stats.TokensAreNormal(names, store);
    forall i | 0 <= i < |toks|
      ensures OwnSafe(toks[i])
    {
      assert toks[i] in toks;
    }
    JsCountsAgree(toks);
  }
}
