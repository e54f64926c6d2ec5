/** The four endpoints of main.py, each an instance of the generic search or
    lookup over one of the two stores: the CID-10 table (`CID_DB`, records
    with `code` and `description`) and the SIGTAP procedure table
    (`SIGTAP_DB`, records with `codigo` and `nome`). The stores are passed in
    as values, the snapshot loaded at start-up. */
module Tables {
  import opened Text
  import opened Records
  import opened TextSearch
  import opened CodeLookup

  const CidCode := "code"
  const CidDescription := "description"
  const SigtapCode := "codigo"
  const SigtapName := "nome"

  /** `Query(..., min_length=3)`: checked on the raw query, before `strip()`. */
  const MinQueryLength: nat := 3

  const CidNotFound := "Código CID não encontrado"
  const SigtapNotFound := "Código SIGTAP não encontrado"

  /** `GET /cid/search?q=`: every CID record whose lower-cased description or
      code contains the normalised query is counted, and the first fifty of
      them (at most), in table order, are returned. */
  function SearchCid(cidDb: seq<Record>, q: string): (r: SearchResult)
    requires |q| >= MinQueryLength
    ensures r.count == |Matching(cidDb, NormalizeQuery(q), CidDescription, CidCode)| <= |cidDb|
    ensures |r.results| == if r.count <= MaxResults then r.count else MaxResults
    ensures r.results == Matching(cidDb, NormalizeQuery(q), CidDescription, CidCode)[..|r.results|]
    ensures forall rec :: rec in r.results ==> rec in cidDb && Matches(rec, NormalizeQuery(q), CidDescription, CidCode)
    ensures r.count <= MaxResults ==>
      forall rec :: rec in r.results <==> rec in cidDb && Matches(rec, NormalizeQuery(q), CidDescription, CidCode)
  {
    Search(cidDb, q, CidDescription, CidCode)
  }

  /** `GET /sigtap/search?q=`: the same over the procedure table, searching
      `nome` and `codigo`. */
  function SearchSigtap(sigtapDb: seq<Record>, q: string): (r: SearchResult)
    requires |q| >= MinQueryLength
    ensures r.count == |Matching(sigtapDb, NormalizeQuery(q), SigtapName, SigtapCode)| <= |sigtapDb|
    ensures |r.results| == if r.count <= MaxResults then r.count else MaxResults
    ensures r.results == Matching(sigtapDb, NormalizeQuery(q), SigtapName, SigtapCode)[..|r.results|]
    ensures forall rec :: rec in r.results ==> rec in sigtapDb && Matches(rec, NormalizeQuery(q), SigtapName, SigtapCode)
    ensures r.count <= MaxResults ==>
      forall rec :: rec in r.results <==> rec in sigtapDb && Matches(rec, NormalizeQuery(q), SigtapName, SigtapCode)
  {
    Search(sigtapDb, q, SigtapName, SigtapCode)
  }

  /** The CID code as the lookup compares it, `codigo.upper().strip()`: no
      lower-case letter and no whitespace at either end, and the same as
      stripping first and then upper-casing. */
  function CidKey(codigo: string): (k: string)
    ensures |k| <= |codigo|
    ensures forall i :: 0 <= i < |k| ==> !IsLowerAscii(k[i])
    ensures k == [] || (!IsSpace(k[0]) && !IsSpace(k[|k| - 1]))
    ensures k == Upper(Strip(codigo))
  {
    StripUpperCommute(codigo);
    Strip(Upper(codigo))
  }

  /** The SIGTAP code as the lookup compares it, `codigo.strip()` with the
      case kept: a slice of the code with only whitespace cut off either end,
      empty exactly when the code is all whitespace. */
  function SigtapKey(codigo: string): (k: string)
    ensures exists i :: 0 <= i <= |codigo| - |k| && k == codigo[i..i + |k|]
                        && AllSpace(codigo[..i]) && AllSpace(codigo[i + |k|..])
    ensures k == [] || (!IsSpace(k[0]) && !IsSpace(k[|k| - 1]))
    ensures k == [] <==> AllSpace(codigo)
  {
    StripIsSlice(codigo);
    StripAllSpace(codigo);
    Strip(codigo)
  }

  /** What `GET /cid/code/{codigo}` answers: a record whose `code` is the
      normalised code, or the CID not-found message exactly when there is none. */
  function CidLookup(cidDb: seq<Record>, codigo: string): (r: LookupResult)
    ensures r.NotFound? <==> forall j :: 0 <= j < |cidDb| ==> !HasValue(cidDb[j], CidCode, CidKey(codigo))
    ensures r.NotFound? ==> r.message == CidNotFound
    ensures r.Found? ==> exists i :: 0 <= i < |cidDb| && cidDb[i] == r.record && HasValue(cidDb[i], CidCode, CidKey(codigo))
                                   && forall j :: 0 <= j < i ==> !HasValue(cidDb[j], CidCode, CidKey(codigo))
  {
    Find(cidDb, CidCode, CidKey(codigo), CidNotFound)
  }

  /** What `GET /sigtap/code/{codigo}` answers: a record whose `codigo` is the
      trimmed code, or the SIGTAP not-found message exactly when there is none. */
  function SigtapLookup(sigtapDb: seq<Record>, codigo: string): (r: LookupResult)
    ensures r.NotFound? <==> forall j :: 0 <= j < |sigtapDb| ==> !HasValue(sigtapDb[j], SigtapCode, SigtapKey(codigo))
    ensures r.NotFound? ==> r.message == SigtapNotFound
    ensures r.Found? ==> exists i :: 0 <= i < |sigtapDb| && sigtapDb[i] == r.record && HasValue(sigtapDb[i], SigtapCode, SigtapKey(codigo))
                                   && forall j :: 0 <= j < i ==> !HasValue(sigtapDb[j], SigtapCode, SigtapKey(codigo))
  {
    Find(sigtapDb, SigtapCode, SigtapKey(codigo), SigtapNotFound)
  }

  /** `get_cid_by_code`: normalise, then scan. */
  method GetCidByCode(cidDb: seq<Record>, codigo: string) returns (r: LookupResult)
    ensures r == CidLookup(cidDb, codigo)
  {
    var code := Strip(Upper(codigo));
    r := Scan(cidDb, CidCode, code, CidNotFound);
  }

  /** `get_sigtap_by_code`: trim, then scan. */
  method GetSigtapByCode(sigtapDb: seq<Record>, codigo: string) returns (r: LookupResult)
    ensures r == SigtapLookup(sigtapDb, codigo)
  {
    var code := Strip(codigo);
    r := Scan(sigtapDb, SigtapCode, code, SigtapNotFound);
  }

  // ---- Properties ----

  /** `/cid/code/a00` finds what `/cid/code/A00` finds: the CID lookup
      ignores the case of the requested code. */
  lemma CidLookupIgnoresCase(cidDb: seq<Record>, codigo: string)
    ensures CidLookup(cidDb, Lower(codigo)) == CidLookup(cidDb, codigo)
    ensures CidLookup(cidDb, Upper(codigo)) == CidLookup(cidDb, codigo)
  {
    UpperOfLower(codigo);
    assert Upper(Upper(codigo)) == Upper(codigo);
  }

  /** Whitespace around the requested code changes neither lookup. */
  lemma LookupsIgnorePadding(cidDb: seq<Record>, sigtapDb: seq<Record>, pre: string, codigo: string, post: string)
    requires AllSpace(pre) && AllSpace(post)
    ensures SigtapLookup(sigtapDb, pre + codigo + post) == SigtapLookup(sigtapDb, codigo)
    ensures CidLookup(cidDb, pre + codigo + post) == CidLookup(cidDb, codigo)
  {
    StripIgnoresPadding(pre, codigo, post);
    UpperAppend(pre + codigo, post);
    UpperAppend(pre, codigo);
    UpperKeepsNonLower(pre);
    UpperKeepsNonLower(post);
    StripIgnoresPadding(pre, Upper(codigo), post);
  }

  /** A raw query of three or more whitespace characters passes the length
      check but normalises to the empty string, so every record matches:
      the count is the size of the store and the results are its first fifty records. */
  lemma BlankQueryMatchesEverything(cidDb: seq<Record>, sigtapDb: seq<Record>, q: string)
    requires |q| >= MinQueryLength && AllSpace(q)
    ensures SearchCid(cidDb, q).count == |cidDb| && SearchCid(cidDb, q).results == Take(cidDb, MaxResults)
    ensures SearchSigtap(sigtapDb, q).count == |sigtapDb| && SearchSigtap(sigtapDb, q).results == Take(sigtapDb, MaxResults)
  {
    assert AllSpace(Lower(q));
    StripAllSpace(Lower(q));
    EmptyQueryMatchesAll(cidDb, CidDescription, CidCode);
    EmptyQueryMatchesAll(sigtapDb, SigtapName, SigtapCode);
  }

  /** Asking either lookup twice gives the same answer. The tables are passed
      in as values, so no endpoint can change them: this is how the model
      states that the endpoints only read `CID_DB` and `SIGTAP_DB`. */
  method RepeatedLookupsAgree(cidDb: seq<Record>, sigtapDb: seq<Record>, codigo: string)
    returns (cid1: LookupResult, cid2: LookupResult, sigtap1: LookupResult, sigtap2: LookupResult)
    ensures cid1 == cid2 && sigtap1 == sigtap2
  {
    cid1 := GetCidByCode(cidDb, codigo);
    cid2 := GetCidByCode(cidDb, codigo);
    sigtap1 := GetSigtapByCode(sigtapDb, codigo);
    sigtap2 := GetSigtapByCode(sigtapDb, codigo);
  }
}
