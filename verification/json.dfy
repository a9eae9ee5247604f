/** JavaScript values as request bodies and response payloads carry them. */
module Json {

  datatype JsValue =
    | JUndefined
    | JNull
    | JBool(b: bool)
    | JNum(n: real)
    | JStr(s: string)
    | JArr(items: seq<JsValue>)
    | JObj(fields: seq<(string, JsValue)>)

  /** JavaScript truthiness (NaN is not modelled). */
  predicate Truthy(v: JsValue) {
    match v
    case JUndefined => false
    case JNull => false
    case JBool(b) => b
    case JNum(n) => n != 0.0
    case JStr(s) => s != ""
    case _ => true
  }

  /** `undefined` or `null`: the values the `== null` idiom catches. */
  predicate Nullish(v: JsValue) {
    v.JUndefined? || v.JNull?
  }

  /** `typeof v`. */
  function TypeOf(v: JsValue): string {
    match v
    case JUndefined => "undefined"
    case JNull => "object"
    case JBool(_) => "boolean"
    case JNum(_) => "number"
    case JStr(_) => "string"
    case JArr(_) => "object"
    case JObj(_) => "object"
  }

  /**
    Property lookup `obj[key]` on a parsed object: `JSON.parse` keeps the last of
    duplicate keys, so the last matching field; `undefined` when absent or when `obj`
    is not an object.
   */
  function Get(obj: JsValue, key: string): (v: JsValue)
    ensures !obj.JObj? ==> v == JUndefined
    decreases if obj.JObj? then |obj.fields| else 0
  {
    match obj
    case JObj(fields) =>
      if fields == [] then JUndefined
      else if fields[|fields| - 1].0 == key then fields[|fields| - 1].1
      else Get(JObj(fields[..|fields| - 1]), key)
    case _ => JUndefined
  }

  /** A field a lookup finds is the object's last field with that key. */
  lemma {:induction false} GetFindsField(fields: seq<(string, JsValue)>, key: string)
    requires Get(JObj(fields), key) != JUndefined
    ensures exists i :: 0 <= i < |fields| && fields[i] == (key, Get(JObj(fields), key))
                        && forall j :: i < j < |fields| ==> fields[j].0 != key
    decreases |fields|
  {
    var n := |fields| - 1;
    if fields[n].0 != key {
      var front := fields[..n];
      GetFindsField(front, key);
      var i :| 0 <= i < |front| && front[i] == (key, Get(JObj(front), key))
               && forall j :: i < j < |front| ==> front[j].0 != key;
      assert fields[i] == front[i];
      assert forall j :: i < j < |fields| ==> fields[j].0 != key by {
        forall j | i < j < |fields| ensures fields[j].0 != key {
          if j < n { assert fields[j] == front[j]; }
        }
      }
    } else {
      assert fields[n] == (key, Get(JObj(fields), key));
    }
  }
}
