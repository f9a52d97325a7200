/**
  Claim sets of a persisted claims token: a mapping from claim name to a JSON-like value,
  and the per-key copy that `updateClaims` performs with `setClaimObject(key, value, false)`.
  How that call combines an existing value with an incoming one lives in a class that is not
  part of this model, so it is a parameter `combine` here; `Replace` replaces the old value
  wholesale (no deep merge of objects, no concatenation of arrays).
*/
module Claims {
  import opened Wrappers

  /** A claim value: any JSON-representable value. */
  datatype Value =
    | Null
    | Bool(b: bool)
    | Number(n: int)
    | Text(s: string)
    | Array(items: seq<Value>)
    | Object(members: map<string, Value>)

  type ClaimSet = map<string, Value>

  /** What `setClaimObject(key, incoming, false)` leaves at `key`, given what was there before. */
  type Combine = (Option<Value>, Value) -> Value

  /** `getClaim(key)`: the value stored under `key`, or null. */
  function Get(c: ClaimSet, key: string): Option<Value>
  {
    if key in c then Some(c[key]) else None
  }

  /** Replacement without coalescing: the incoming value wins wholesale. */
  function Replace(existing: Option<Value>, incoming: Value): Value
  {
    incoming
  }

  /**
    The claim set `dst` after every key of `src` has been set on it with `combine`:
    keys of `src` are combined, keys only in `dst` are untouched.
  */
  function Overlay(dst: ClaimSet, src: ClaimSet, combine: Combine): ClaimSet
  {
    map k | k in dst.Keys + src.Keys :: if k in src then combine(Get(dst, k), src[k]) else dst[k]
  }

  /**
    The loop `for (String key : src.keys()) dst.setClaimObject(key, src.getClaim(key), false)`
    of UmaPctService.updateClaims (its two loops are the same shape). Keys are visited in an
    arbitrary order; the result does not depend on it.
  */
  method SetClaims(dst: ClaimSet, src: ClaimSet, combine: Combine) returns (r: ClaimSet)
    ensures r == Overlay(dst, src, combine)
  {
    r := dst;
    var todo := src.Keys;
    while todo != {}
      invariant todo <= src.Keys
      invariant r.Keys == dst.Keys + (src.Keys - todo)
      invariant forall k :: k in r && k !in todo ==> r[k] == Overlay(dst, src, combine)[k]
      invariant forall k :: k in todo ==> Get(r, k) == Get(dst, k)
      decreases todo
    {
      var k :| k in todo;
      r := r[k := combine(Get(r, k), src[k])];
      todo := todo - {k};
    }
  }

  /** Setting claims never drops a claim: the keys afterwards are those of both sets. */
  lemma OverlayKeys(dst: ClaimSet, src: ClaimSet, combine: Combine)
    ensures Overlay(dst, src, combine).Keys == dst.Keys + src.Keys
  {
  }

  /** A key of the source is combined with what the destination held; any other key is left alone. */
  lemma OverlayAt(dst: ClaimSet, src: ClaimSet, combine: Combine, k: string)
    ensures k in src ==> Overlay(dst, src, combine)[k] == combine(Get(dst, k), src[k])
    ensures k !in src && k in dst ==> Overlay(dst, src, combine)[k] == dst[k]
    ensures k !in src && k !in dst ==> k !in Overlay(dst, src, combine)
  {
  }

  /** With wholesale replacement, setting claims is a right-biased map union. */
  lemma OverlayReplaceIsUnion(dst: ClaimSet, src: ClaimSet)
    ensures Overlay(dst, src, Replace) == dst + src
  {
  }

  /** With wholesale replacement, setting the same claims twice changes nothing the second time. */
  lemma OverlayReplaceIdempotent(dst: ClaimSet, src: ClaimSet)
    ensures Overlay(Overlay(dst, src, Replace), src, Replace) == Overlay(dst, src, Replace)
  {
  }

  /** Merging `{a:1, b:2}` into `{a:0, c:3}` yields `{a:1, b:2, c:3}`. */
  lemma OverlayReplaceExample()
    ensures Overlay(map["a" := Number(0), "c" := Number(3)], map["a" := Number(1), "b" := Number(2)], Replace)
         == map["a" := Number(1), "b" := Number(2), "c" := Number(3)]
  {
  }
}
