/**
  The persisted claims token (PCT) record, the permission grants that may name one, and the
  pure parts of UmaPctService: the blank test on codes, the layout of directory names,
  the default lifetime and the shape of a newly created record.
*/
module Records {
  import opened Wrappers
  import opened Claims

  /** A stored token: its code, DN, client, claim set and expiration instant (seconds). */
  datatype Pct = Pct(code: string, dn: string, clientId: string, claims: ClaimSet, expiration: int)

  /** A pending permission grant; only its attributes are read here. */
  datatype Permission = Permission(attributes: map<string, string>)

  /** `UmaPctService.DEFAULT_PCT_LIFETIME`, in seconds. */
  const DEFAULT_PCT_LIFETIME: int := 3600

  /** The attribute of a permission grant that names the ticket's PCT. */
  const PCT_ATTRIBUTE: string := "pct"

  /** Java's `Character.isWhitespace` on one UTF-16 unit (Unicode tables of Java 8). */
  predicate IsWhitespace(c: char)
  {
    || ('\U{9}' <= c <= '\U{D}')
    || ('\U{1C}' <= c <= '\U{1F}')
    || c == ' '
    || c == '\U{1680}'
    || c == '\U{180E}'
    || ('\U{2000}' <= c <= '\U{2006}')
    || ('\U{2008}' <= c <= '\U{200A}')
    || c == '\U{2028}'
    || c == '\U{2029}'
    || c == '\U{205F}'
    || c == '\U{3000}'
  }

  /** `StringUtils.isBlank`: null, empty, or whitespace only. */
  predicate IsBlank(s: Option<string>)
  {
    s.None? || forall i :: 0 <= i < |s.value| ==> IsWhitespace(s.value[i])
  }

  /** `pctLifetime()`: the configured lifetime when it is positive, the default otherwise. */
  function PctLifetime(configured: int): (r: int)
    ensures r > 0
    ensures configured > 0 ==> r == configured
    ensures configured <= 0 ==> r == DEFAULT_PCT_LIFETIME
  {
    if configured <= 0 then DEFAULT_PCT_LIFETIME else configured
  }

  /** `branchBaseDn()`: the `ou=pct` branch directly beneath the tenant's UMA base. */
  function BranchBaseDn(umaBase: string): (r: string)
    ensures |r| == |umaBase| + 7
    ensures r[..7] == "ou=pct," && r[7..] == umaBase
  {
    "ou=pct," + umaBase
  }

  /**
    `dn(code)`: the DN of the record with a given code, one RDN beneath the branch; a null or
    blank code is refused with an IllegalArgumentException.
  */
  function Dn(code: Option<string>, umaBase: string): (r: Result<string>)
    ensures r.Err? <==> IsBlank(code)
    ensures r.Ok? ==> r.value == "oxAuthTokenCode=" + code.value + "," + BranchBaseDn(umaBase)
  {
    if IsBlank(code) then Err("PCT code is null or blank.")
    else Ok("oxAuthTokenCode=" + code.value + "," + BranchBaseDn(umaBase))
  }

  /** The code of a new record: a random UUID, an underscore and a random serial. */
  function GeneratedCode(uuid: string, serial: string): (r: string)
    ensures !IsBlank(Some(r))
    ensures |r| == |uuid| + 1 + |serial|
    ensures r[..|uuid|] == uuid && r[|uuid|] == '_' && r[|uuid| + 1..] == serial
  {
    var r := uuid + "_" + serial;
    assert r[|uuid|] == '_' && !IsWhitespace('_');
    r
  }

  /**
    `createPct(clientId)`: a record not yet persisted, with a generated code, the DN derived from
    it, no claims, and the expiration the token's constructor computes (given here).
  */
  function CreatePct(clientId: string, uuid: string, serial: string, expiration: int, umaBase: string): (p: Pct)
    ensures !IsBlank(Some(p.code)) && p.code == GeneratedCode(uuid, serial)
    ensures Dn(Some(p.code), umaBase) == Ok(p.dn)
    ensures p.clientId == clientId && p.claims == map[] && p.expiration == expiration
  {
    var code := GeneratedCode(uuid, serial);
    Pct(code, Dn(Some(code), umaBase).value, clientId, map[], expiration)
  }

  /** `permissions.get(0).getAttributes().get("pct")` on a grant. */
  function TicketCode(p: Permission): (r: Option<string>)
    ensures r.Some? <==> PCT_ATTRIBUTE in p.attributes
    ensures r.Some? ==> r.value == p.attributes[PCT_ATTRIBUTE]
  {
    if PCT_ATTRIBUTE in p.attributes then Some(p.attributes[PCT_ATTRIBUTE]) else None
  }

  /** Distinct codes have distinct DNs, so a DN names at most one record. */
  lemma DnInjective(c1: string, c2: string, umaBase: string)
    requires Dn(Some(c1), umaBase).Ok? && Dn(Some(c2), umaBase).Ok?
    requires Dn(Some(c1), umaBase) == Dn(Some(c2), umaBase)
    ensures c1 == c2
  {
    var d := Dn(Some(c1), umaBase).value;
    var tail := "," + BranchBaseDn(umaBase);
    assert |c1| == |c2|;
    assert d[16..16 + |c1|] == c1;
    assert d[16..16 + |c2|] == c2;
  }

  /** The empty code and whitespace-only codes are blank; so dn refuses them. */
  lemma BlankCodesRefused(n: nat)
    ensures Dn(Some(""), "o=gluu").Err?
    ensures Dn(Some(seq(n, i => ' ')), "o=gluu").Err?
    ensures Dn(Some("\t \r\n"), "o=gluu").Err?
    ensures Dn(None, "o=gluu").Err?
    ensures Dn(Some(" a "), "o=gluu").Ok?
  {
    assert !IsWhitespace(" a "[1]);
  }
}
