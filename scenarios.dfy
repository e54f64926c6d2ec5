/** Worked examples of the four endpoints, each over a one-record store. */
module Scenarios {
  import opened Text
  import opened Records
  import opened TextSearch
  import opened CodeLookup
  import opened Tables

  /** The CID record `A00 Cholera` is found by the query `chol`. */
  lemma CholeraFoundBySearch(cholera: Record)
    requires cholera == map[CidCode := "A00", CidDescription := "Cholera"]
    ensures SearchCid([cholera], "chol") == SearchResult(1, [cholera])
  {
    var db := [cholera];
    assert Lower("chol") == "chol";
    StripKeepsUnpadded("chol");
    assert Lower("Cholera") == "cholera";
    assert OccursAt("cholera", "chol", 0);
    assert Matches(cholera, "chol", CidDescription, CidCode);
    assert Matching(db, "chol", CidDescription, CidCode) == db;
  }

  /** The CID record `A00 Cholera` is found by the code `A00` and by `a00`. */
  lemma CholeraFoundByCode(cholera: Record)
    requires cholera == map[CidCode := "A00", CidDescription := "Cholera"]
    ensures CidLookup([cholera], "A00") == Found(cholera)
    ensures CidLookup([cholera], "a00") == Found(cholera)
  {
    assert CidKey("A00") == "A00" by {
      UpperKeepsNonLower("A00");
      StripKeepsUnpadded("A00");
    }
    assert FirstIndex([cholera], CidCode, "A00") == 0;
    assert Lower("A00") == "a00";
    CidLookupIgnoresCase([cholera], "A00");
  }

  /** A store holding only `A00` answers the code `Z99` with the CID not-found message. */
  lemma UnknownCidCodeNotFound(cholera: Record)
    requires cholera == map[CidCode := "A00", CidDescription := "Cholera"]
    ensures CidLookup([cholera], "Z99") == NotFound(CidNotFound)
  {
    assert CidKey("Z99") == "Z99" by {
      UpperKeepsNonLower("Z99");
      StripKeepsUnpadded("Z99");
    }
    assert "A00" != "Z99" by { assert "A00"[0] != "Z99"[0]; }
    assert FirstIndex([cholera], CidCode, "Z99") == 1;
  }

  /** The SIGTAP procedure `0301010015` is found by its code, with or
      without blanks around it. */
  lemma ConsultationFoundByCode(consulta: Record)
    requires consulta == map[SigtapCode := "0301010015", SigtapName := "Consulta médica"]
    ensures SigtapLookup([consulta], "0301010015") == Found(consulta)
    ensures SigtapLookup([consulta], " " + "0301010015" + " ") == Found(consulta)
  {
    StripKeepsUnpadded("0301010015");
    assert FirstIndex([consulta], SigtapCode, "0301010015") == 0;
    LookupsIgnorePadding([], [consulta], " ", "0301010015", " ");
  }

  /** A store holding only `0301010015` answers `0301010016` with the SIGTAP
      not-found message. */
  lemma UnknownSigtapCodeNotFound(consulta: Record)
    requires consulta == map[SigtapCode := "0301010015", SigtapName := "Consulta médica"]
    ensures SigtapLookup([consulta], "0301010016") == NotFound(SigtapNotFound)
  {
    StripKeepsUnpadded("0301010016");
    assert "0301010015" != "0301010016" by { assert "0301010015"[9] != "0301010016"[9]; }
    assert FirstIndex([consulta], SigtapCode, "0301010016") == 1;
  }

  /** The SIGTAP lookup compares case-sensitively: a code stored as `ab` is
      not found under `AB`. */
  lemma SigtapLookupIsCaseSensitive()
    ensures SigtapLookup([map[SigtapCode := "ab"]], "AB") == NotFound(SigtapNotFound)
    ensures SigtapLookup([map[SigtapCode := "ab"]], "ab") == Found(map[SigtapCode := "ab"])
  {
    var db := [map[SigtapCode := "ab"]];
    assert SigtapLookup(db, "AB") == NotFound(SigtapNotFound) by {
      StripKeepsUnpadded("AB");
      assert "ab" != "AB" by { assert "ab"[0] != "AB"[0]; }
      assert FirstIndex(db, SigtapCode, "AB") == 1;
    }
    assert SigtapLookup(db, "ab") == Found(db[0]) by {
      StripKeepsUnpadded("ab");
      assert FirstIndex(db, SigtapCode, "ab") == 0;
    }
  }

  /** With an empty CID table (its file missing at start-up) a search finds
      nothing and does not fail. */
  lemma EmptyTableSearch()
    ensures SearchCid([], "abc") == SearchResult(0, [])
  {
  }
}
