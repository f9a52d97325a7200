/**
  UmaPctService over an in-memory directory: the `ou=pct` branch is a flag and its records a
  table keyed by code. Everything the directory client could fail at is a parameter saying
  whether it fails (`branchFails` for the branch entry, `persistFails`, `mergeFails`, `failing`
  for removals); the random parts of a new code and the new record's expiration are parameters
  too.
*/
module Service {
  import opened Wrappers
  import opened Claims
  import opened Records
  import opened ClaimsMerge
  import opened Sweep

  class UmaPctService {
    /** The records under `ou=pct`, keyed by their code. */
    var entries: Table
    /** Whether the `ou=pct` branch exists. */
    var branchExists: bool
    /** The tenant's UMA base DN, from the static configuration. */
    const umaBase: string

    /** Each record is stored under its own code, and there are no records without the branch. */
    ghost predicate Valid()
      reads this
    {
      && (forall k :: k in entries ==> entries[k].code == k)
      && (!branchExists ==> entries == map[])
    }

    constructor (umaBase: string)
      ensures Valid() && this.umaBase == umaBase
      ensures entries == map[] && !branchExists
    {
      this.umaBase := umaBase;
      entries := map[];
      branchExists := false;
    }

    /** `getByCode`: the record with the given code, or null when there is none; it never throws. */
    function GetByCode(code: string): (r: Option<Pct>)
      reads this
      requires Valid()
      ensures r.Some? <==> code in entries
      ensures r.Some? ==> r.value == entries[code] && r.value.code == code
    {
      if code in entries then Some(entries[code]) else None
    }

    /** The ticket token named by a permission grant: looked up only when its code is not blank. */
    function TicketPct(p: Permission): (r: Option<Pct>)
      reads this
      requires Valid()
      ensures IsBlank(TicketCode(p)) ==> r == None
      ensures r.Some? <==> !IsBlank(TicketCode(p)) && TicketCode(p).value in entries
      ensures r.Some? ==> r.value.code == TicketCode(p).value && r.value in entries.Values
    {
      var c := TicketCode(p);
      if IsBlank(c) then None else GetByCode(c.value)
    }

    /**
      `addBranch`: persists the `ou=pct` branch entry. The directory refuses to add an entry that
      already exists, and refuses any add when `branchFails`; the source does not catch either
      (`ok` is false). Afterwards the branch exists unless a missing branch could not be added.
    */
    method AddBranch(branchFails: bool) returns (ok: bool)
      requires Valid()
      modifies this`branchExists
      ensures Valid()
      ensures ok == (!old(branchExists) && !branchFails)
      ensures branchExists == (old(branchExists) || !branchFails)
    {
      ok := !branchExists && !branchFails;
      if ok {
        branchExists := true;
      }
    }

    /**
      `prepareBranch`: creates the branch when it is missing; the records stay as they were.
      `ok` is false when the branch write throws, which happens only when the branch is missing
      and `branchFails`.
    */
    method PrepareBranch(branchFails: bool) returns (ok: bool)
      requires Valid()
      modifies this`branchExists
      ensures Valid()
      ensures ok == branchExists
      ensures branchExists == (old(branchExists) || !branchFails)
    {
      ok := true;
      if !branchExists {
        ok := AddBranch(branchFails);
      }
    }

    /**
      `persist`: bootstraps the branch, sets the DN from the code and adds the record. A failed
      branch write, a blank code, a record that already exists or a directory failure is
      caught: nothing is added. The record is returned with its DN as the call leaves it.
    */
    method Persist(pct: Pct, branchFails: bool, storeFails: bool) returns (p: Pct)
      requires Valid()
      modifies this
      ensures Valid()
      ensures branchExists == (old(branchExists) || !branchFails)
      ensures !branchExists || IsBlank(Some(pct.code)) ==> p == pct && entries == old(entries)
      ensures branchExists && !IsBlank(Some(pct.code)) ==>
        && p == pct.(dn := Dn(Some(pct.code), umaBase).value)
        && entries == (if pct.code !in old(entries) && !storeFails then old(entries)[pct.code := p] else old(entries))
    {
      p := pct;
      var branchOk := PrepareBranch(branchFails);
      if !branchOk {
        return;
      }
      var dn := Dn(Some(pct.code), umaBase);
      if dn.Err? {
        return;
      }
      p := pct.(dn := dn.value);
      if pct.code !in entries && !storeFails {
        entries := entries[pct.code := p];
      }
    }

    /**
      `createPctAndPersist`: a new record with a generated code, persisted. It is added to the
      table exactly when the branch exists or could be added, its code is new and the directory
      accepts the write.
    */
    method CreatePctAndPersist(clientId: string, uuid: string, serial: string, expiration: int,
                               branchFails: bool, storeFails: bool) returns (pct: Pct)
      requires Valid()
      modifies this
      ensures Valid()
      ensures branchExists == (old(branchExists) || !branchFails)
      ensures pct == CreatePct(clientId, uuid, serial, expiration, umaBase)
      ensures entries == (if branchExists && pct.code !in old(entries) && !storeFails
                          then old(entries)[pct.code := pct] else old(entries))
    {
      pct := CreatePct(clientId, uuid, serial, expiration, umaBase);
      pct := Persist(pct, branchFails, storeFails);
    }

    /**
      The directory's merge of a record: writes it under its code, creating it if absent. It
      throws when the branch is missing or the directory fails; `ok` says whether it wrote.
    */
    method StoreMerge(pct: Pct, storeFails: bool) returns (ok: bool)
      requires Valid()
      modifies this`entries
      ensures Valid()
      ensures ok == (branchExists && !storeFails)
      ensures entries == (if ok then old(entries)[pct.code := pct] else old(entries))
    {
      ok := branchExists && !storeFails;
      if ok {
        entries := entries[pct.code := pct];
      }
    }

    /** `merge`: the directory's merge with its failure caught. */
    method Merge(pct: Pct, storeFails: bool)
      requires Valid()
      modifies this`entries
      ensures Valid()
      ensures entries == (if branchExists && !storeFails then old(entries)[pct.code := pct] else old(entries))
    {
      var _ := StoreMerge(pct, storeFails);
    }

    /**
      `remove(UmaPCT)`: deletes a record. Deleting a record that is not there changes nothing;
      a refused deletion throws (`ok` is false) and changes nothing.
    */
    method Remove(pct: Pct, failing: set<string>) returns (ok: bool)
      requires Valid()
      modifies this`entries
      ensures Valid()
      ensures ok == (pct.code !in failing)
      ensures entries == (if ok then old(entries) - {pct.code} else old(entries))
    {
      ok := pct.code !in failing;
      if ok {
        entries := entries - {pct.code};
      }
    }

    /**
      `remove(String)`: deletes the record found by code. When no record has the code nothing
      changes and nothing is reported.
    */
    method RemoveByCode(code: string, failing: set<string>) returns (ok: bool)
      requires Valid()
      modifies this`entries
      ensures Valid()
      ensures ok == (code !in old(entries) || code !in failing)
      ensures entries == (if ok then old(entries) - {code} else old(entries))
    {
      var p := GetByCode(code);
      if p.None? {
        ok := true;
        return;
      }
      ok := Remove(p.value, failing);
    }

    /**
      `remove(List)`: deletes the records one after another. The first refused deletion throws
      out of the loop, so the records before it are gone and it and those after it are not.
    */
    method RemoveAll(pcts: seq<Pct>, failing: set<string>) returns (ok: bool)
      requires Valid()
      modifies this`entries
      ensures Valid()
      ensures ok == (FirstFailure(pcts, failing) == |pcts|)
      ensures entries == old(entries) - Codes(pcts[..FirstFailure(pcts, failing)])
    {
      var n := FirstFailure(pcts, failing);
      var i := 0;
      while i < |pcts|
        invariant 0 <= i <= n
        invariant Valid()
        invariant entries == old(entries) - Codes(pcts[..i])
        decreases |pcts| - i
      {
        var removed := Remove(pcts[i], failing);
        if !removed {
          ok := false;
          return;
        }
        assert pcts[..i + 1] == pcts[..i] + [pcts[i]];
        assert Codes(pcts[..i + 1]) == Codes(pcts[..i]) + {pcts[i].code};
        i := i + 1;
      }
      ok := true;
      assert pcts[..i] == pcts;
    }

    /**
      `updateClaims`: resolves the ticket token from the first permission, picks or creates the
      working record, copies the ticket's claims and then the ID token's into the working claim
      set, and merges the record into the directory. It never throws: with no permissions it
      returns the input token and touches nothing; when the final merge fails it returns the
      record as it stood, and the table keeps whatever was created before the failure.
    */
    method UpdateClaims(pct: Option<Pct>, idToken: Option<ClaimSet>, clientId: string,
                        permissions: seq<Permission>, combine: Combine,
                        uuid: string, serial: string, expiration: int,
                        branchFails: bool, persistFails: bool, mergeFails: bool) returns (r: Option<Pct>)
      requires Valid()
      modifies this
      ensures Valid()
      ensures |permissions| == 0 ==>
        r == pct && entries == old(entries) && branchExists == old(branchExists)
      ensures |permissions| > 0 ==>
        var ticket := old(TicketPct(permissions[0]));
        var created := CreatePct(clientId, uuid, serial, expiration, umaBase);
        var neither := pct.None? && ticket.None?;
        var w := WorkingRecord(pct, ticket, created, idToken, combine);
        var mid := if neither && branchExists && created.code !in old(entries) && !persistFails
                   then old(entries)[created.code := created] else old(entries);
        && r == Some(w)
        && branchExists == (old(branchExists) || (neither && !branchFails))
        && entries == (if branchExists && !mergeFails then mid[w.code := w] else mid)
    {
      if |permissions| == 0 {
        // permissions.get(0) throws; the catch returns the local token as it is
        r := pct;
        return;
      }
      var ticketPct := TicketPct(permissions[0]);
      var hasPct := pct.Some?;
      var work: Pct;
      if !hasPct {
        if ticketPct.Some? {
          work := ticketPct.value;
        } else {
          work := CreatePctAndPersist(clientId, uuid, serial, expiration, branchFails, persistFails);
        }
      } else {
        work := pct.value;
      }
      var pctClaims := work.claims;
      if ticketPct.Some? && hasPct {
        pctClaims := SetClaims(pctClaims, ticketPct.value.claims, combine);
        work := ticketPct.value;
      }
      if idToken.Some? {
        pctClaims := SetClaims(pctClaims, idToken.value, combine);
      }
      work := work.(claims := pctClaims);
      var _ := StoreMerge(work, mergeFails);
      r := Some(work);
    }

    /**
      `cleanup(now)`: bootstraps the branch, then takes chunks of the records the filter matches
      (each chunk some not yet visited matching records, as the paged search returns them) and
      removes each record of a chunk, catching a refused removal and going on with the rest.
      A failed branch write escapes `cleanup` before any search (`ok` is false).
    */
    method Cleanup(now: int, encodingFails: bool, failing: set<string>, branchFails: bool) returns (ok: bool)
      requires Valid()
      modifies this
      ensures Valid()
      ensures ok == branchExists && branchExists == (old(branchExists) || !branchFails)
      ensures entries == (if ok then Swept(old(entries), now, encodingFails, failing) else old(entries))
    {
      ok := PrepareBranch(branchFails);
      if !ok {
        return;
      }
      ghost var start := entries;
      var pending := Matching(entries, now, encodingFails);
      while pending != {}
        invariant Valid() && branchExists
        invariant pending <= Matching(start, now, encodingFails)
        invariant entries == start - (Matching(start, now, encodingFails) - pending - failing)
        decreases pending
      {
        // getChunkOrNull: a non-empty part of what the search still has to return
        ghost var x :| x in pending;
        assert {x} != {} && {x} <= pending;
        var chunk :| chunk != {} && chunk <= pending;
        // performAction
        var rest := chunk;
        while rest != {}
          invariant rest <= chunk
          invariant Valid() && branchExists
          invariant entries == start - (Matching(start, now, encodingFails) - (pending - (chunk - rest)) - failing)
          decreases rest
        {
          var k :| k in rest;
          assert k in entries;
          var _ := Remove(entries[k], failing);
          rest := rest - {k};
        }
        pending := pending - chunk;
      }
    }
  }
}
