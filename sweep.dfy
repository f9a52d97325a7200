/**
  The table left behind by UmaPctService.cleanup and by remove(List), as functions of the
  table before, with the properties the expiry sweep promises.
*/
module Sweep {
  import opened Records

  /** The records of the PCT branch, keyed by code. */
  type Table = map<string, Pct>

  /**
    The sweep's search filter: `oxAuthExpiration<=now`, or, when `now` cannot be encoded as a
    generalized time, the presence filter on `oxAuthExpiration`, which every record meets.
  */
  predicate MatchesFilter(p: Pct, now: int, encodingFails: bool)
  {
    encodingFails || p.expiration <= now
  }

  /** The codes of the records the sweep's filter matches. */
  function Matching(t: Table, now: int, encodingFails: bool): set<string>
  {
    set k | k in t && MatchesFilter(t[k], now, encodingFails)
  }

  /**
    The table after a sweep: every matching record is gone except those whose removal the
    directory refused (`failing`).
  */
  function Swept(t: Table, now: int, encodingFails: bool, failing: set<string>): Table
  {
    t - (Matching(t, now, encodingFails) - failing)
  }

  /** The sweep only removes: what is left is part of what was there. */
  lemma SweptOnlyRemoves(t: Table, now: int, encodingFails: bool, failing: set<string>)
    ensures var s := Swept(t, now, encodingFails, failing);
      forall k :: k in s ==> k in t && s[k] == t[k]
  {
  }

  /** Every record that expires after `now` is left as it was. */
  lemma SweptKeepsLive(t: Table, now: int, failing: set<string>)
    ensures var s := Swept(t, now, false, failing);
      forall k :: k in t && t[k].expiration > now ==> k in s && s[k] == t[k]
  {
  }

  /**
    When every removal succeeds, no record with `expiration <= now` is left, and exactly the
    records expiring after `now` remain.
  */
  lemma SweptRemovesExpired(t: Table, now: int)
    ensures var s := Swept(t, now, false, {});
      forall k :: k in t ==> (k in s <==> t[k].expiration > now)
  {
  }

  /** A failed removal costs only that record: every other matching record is still removed. */
  lemma SweptDespiteFailures(t: Table, now: int, encodingFails: bool, failing: set<string>)
    ensures var s := Swept(t, now, encodingFails, failing);
      forall k :: k in s && MatchesFilter(s[k], now, encodingFails) ==> k in failing
  {
  }

  /** In the presence-filter fallback every record is eligible: only refused removals survive. */
  lemma SweptFallbackRemovesAll(t: Table, now: int, failing: set<string>)
    ensures Swept(t, now, true, failing).Keys <= failing
    ensures Swept(t, now, true, {}) == map[]
  {
  }

  /** Sweeping twice at the same instant removes nothing more. */
  lemma SweptIdempotent(t: Table, now: int, encodingFails: bool, failing: set<string>)
    ensures var s := Swept(t, now, encodingFails, failing);
      Swept(s, now, encodingFails, failing) == s
  {
  }

  /** The boundary is inclusive: a record expiring at `now` is removed, one a second later stays. */
  lemma SweepBoundary(p: Pct, q: Pct, now: int)
    requires p.code != q.code && p.expiration == now && q.expiration == now + 1
    ensures var s := Swept(map[p.code := p, q.code := q], now, false, {});
      p.code !in s && q.code in s && s[q.code] == q
  {
  }

  /** The codes of a list of records. */
  function Codes(pcts: seq<Pct>): set<string>
  {
    set i | 0 <= i < |pcts| :: pcts[i].code
  }

  /**
    The position of the first record whose removal the directory refuses, or the length of the
    list when there is none: `remove(List)` stops there, since the exception is not caught.
  */
  function FirstFailure(pcts: seq<Pct>, failing: set<string>): (n: nat)
    ensures n <= |pcts|
    ensures forall j :: 0 <= j < n ==> pcts[j].code !in failing
    ensures n < |pcts| ==> pcts[n].code in failing
  {
    if pcts == [] then 0
    else if pcts[0].code in failing then 0
    else 1 + FirstFailure(pcts[1..], failing)
  }
}
