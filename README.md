# CID-10 / SIGTAP lookup service — verified model of the search and lookup core

The service keeps two read-only tables in memory. The CID-10 table holds
diagnosis codes: records with `code` and `description`. The SIGTAP table
holds procedure codes: records with `codigo` and `nome`. It answers two kinds
of request on each table:

- **Search** (`search_cid`, `search_sigtap`). The query is lower-cased and then
  stripped of surrounding whitespace. A record matches when the normalised
  query is a substring of its lower-cased text field or of its lower-cased
  code field. A missing field reads as the empty string. The answer holds the
  total number of matches (`count`) and the first 50 matches (`results`), in
  table order.
- **Exact lookup** (`get_cid_by_code`, `get_sigtap_by_code`). The requested
  code is normalised: CID codes are upper-cased and stripped, SIGTAP codes are
  only stripped. The first record whose code field equals the normalised code
  is returned. If there is none, the lookup fails with a fixed message per
  table (the HTTP 404).

The model is written in Dafny, in six modules:

- `Text` (text.dfy) models the Python string operations used: `strip()`
  with Python's whitespace set, `lower()` and `upper()` on ASCII letters,
  and the substring test `sub in s`.
- `Records` (records.dfy) models a record as a `map<string, string>` where
  an absent key is a missing field. It also models `dict.get` with and
  without a default.
- `TextSearch` (search.dfy) holds the generic search over one table and two
  fields. It is pure, because the source is a list comprehension and a slice.
- `CodeLookup` (lookup.dfy) holds the generic first-match scan. The method
  `Scan` is the source's `for` loop with early return. It is proved against
  the specification function `Find`.
- `Tables` (tables.dfy) holds the four endpoints as instances of the two
  generic operations, with the field names and not-found messages of
  main.py.
- `Scenarios` (scenarios.dfy) holds worked examples over one-record tables.

Each table is passed to the endpoints as a value: the snapshot loaded at
start-up. Search is a set of functions and the lookup methods have no
`modifies` clause. So no operation can change a table, and repeating a call
gives the same answer.

The length check `Query(..., min_length=3)` applies to the raw query, before
`strip()` (main.py:73-75). So a query of three blanks is accepted, normalises
to `""`, and matches every record, including records that lack both searched
fields. `Tables.BlankQueryMatchesEverything` proves this.

## Model

| member | source | states |
|---|---|---|
| Text.Strip | main.py:75 | The normalising `strip()` leaves no whitespace at either end of its result and never lengthens the string |
| Text.StripIsSlice | main.py:75 | What `strip()` keeps is a contiguous slice of the input, and everything removed before and after it is whitespace |
| Text.StripAllSpace | main.py:75 | A string strips to the empty string exactly when it consists only of whitespace |
| Text.StripIgnoresPadding | main.py:106 | Any whitespace added before and after a string is removed again by `strip()` |
| Text.StripLowerCommute | main.py:75 | Lower-casing and stripping commute, so `q.lower().strip()` equals `q.strip().lower()` |
| Text.StripUpperCommute | main.py:85 | Upper-casing and stripping commute, so `codigo.upper().strip()` equals `codigo.strip().upper()` |
| Text.Lower | main.py:78 | `lower()` keeps the length, turns every upper-case ASCII letter into its lower-case letter (code point plus 32), leaves no upper-case ASCII letter and changes no other character |
| Text.Upper | main.py:85 | `upper()` keeps the length, turns every lower-case ASCII letter into its upper-case letter (code point minus 32), leaves no lower-case ASCII letter and changes no other character |
| Text.UpperOfLower | main.py:85 | Upper-casing a lower-cased code gives the same result as upper-casing the code |
| Text.Contains | main.py:78 | `sub in s` holds exactly when `sub` occurs in `s` at some position |
| Text.ContainsEmpty | main.py:78 | The empty query occurs in every string, and only the empty query occurs in the empty string |
| Records.GetOr | main.py:78 | `item.get(key, '')` is the field's value when the record has the field and the default otherwise |
| Records.HasValue | main.py:87 | `item.get(key) == code` is false when the field is missing and otherwise holds exactly when the field's value is the code |
| TextSearch.NormalizeQuery | main.py:75 | The normalised query `q.lower().strip()` is no longer than `q`, has no upper-case ASCII letter and no whitespace at either end, and equals `q.strip().lower()` |
| TextSearch.Matches | main.py:78 | A record matches exactly when the query occurs at some position of its lower-cased text field or of its lower-cased code field. A record lacking both fields matches exactly when the query is empty |
| TextSearch.Take | main.py:80 | `results[:50]` is the first 50 elements, or the whole list when it is shorter |
| TextSearch.Matching | main.py:76-79 | The comprehension returns a subsequence of the table in table order. Each record appears exactly as many times as in the table if it matches, and not at all otherwise. So membership holds exactly when the record is in the table and matches |
| TextSearch.MatchingIsUnique | main.py:76-79 | Any in-order subsequence of the table that keeps every matching record, with its multiplicity, and drops every other record is the comprehension's result |
| TextSearch.Search | main.py:75-80 | `count` is the number of all matches and is at most the table size. `results` has length min(count, 50) and is the first part of the match list, in table order. Every result is a matching table record. When count is at most 50, every matching record is among the results |
| TextSearch.MissingFieldsMatchOnlyEmpty | main.py:78 | A record without either searched field matches exactly when the normalised query is empty |
| TextSearch.EmptyQueryMatchesAll | main.py:76-79 | With an empty normalised query the match list is the whole table |
| TextSearch.SearchIgnoresQueryCase | main.py:75 | Upper-casing or lower-casing the query does not change the search answer |
| CodeLookup.FirstIndex | main.py:86-88 | Gives the position of a record whose code field equals the code, with no earlier record having it, or the table length when no record has it |
| CodeLookup.Find | main.py:86-89 | Not-found, with the given message, exactly when no record's code field equals the code. Otherwise the result is the first such record in table order |
| CodeLookup.Scan | main.py:86-89 | The loop with early return computes exactly `Find` |
| Tables.SearchCid | main.py:72-80 | CID search over `description` and `code` for a raw query of length at least 3: the count is the number of matches, and the results are the first min(count, 50) matches in table order. Every result is a matching record, and when count is at most 50 every matching record is among them |
| Tables.SearchSigtap | main.py:93-101 | SIGTAP search over `nome` and `codigo` for a raw query of length at least 3: the count is the number of matches, and the results are the first min(count, 50) matches in table order. Every result is a matching record, and when count is at most 50 every matching record is among them |
| Tables.CidKey | main.py:85 | The CID key `codigo.upper().strip()` is no longer than the code, has no lower-case ASCII letter and no whitespace at either end, and equals `codigo.strip().upper()` |
| Tables.SigtapKey | main.py:106 | The SIGTAP key `codigo.strip()` is a slice of the code with only whitespace cut off either end, keeps the case, and is empty exactly when the code is all whitespace |
| Tables.CidLookup | main.py:83-89 | Answers "Código CID não encontrado" exactly when no record's `code` equals `upper(strip(codigo))`. Otherwise it answers the first record, in table order, whose `code` equals it |
| Tables.SigtapLookup | main.py:104-110 | Answers "Código SIGTAP não encontrado" exactly when no record's `codigo` equals `strip(codigo)`. Otherwise it answers the first record, in table order, whose `codigo` equals it. The comparison is case-sensitive |
| Tables.GetCidByCode | main.py:83-89 | The endpoint's normalise-then-scan computes `CidLookup` |
| Tables.GetSigtapByCode | main.py:104-110 | The endpoint's trim-then-scan computes `SigtapLookup` |
| Tables.CidLookupIgnoresCase | main.py:85 | The CID lookup gives the same answer for a code, its lower-case form and its upper-case form |
| Tables.LookupsIgnorePadding | main.py:85-106 | Whitespace around the requested code changes neither lookup |
| Tables.BlankQueryMatchesEverything | main.py:73-78 | A raw query of three or more whitespace characters passes the length check and matches every record. The count is the table size and the results are the table's first 50 records |
| Tables.RepeatedLookupsAgree | main.py:83-110 | Asking either lookup twice with the same code gives the same answer. The tables are passed in as values, which is how the model states that the endpoints only read them |
| Scenarios.CholeraFoundBySearch | main.py:72-80 | In a table holding only `A00 Cholera`, the query `chol` gives count 1 and that record |
| Scenarios.CholeraFoundByCode | main.py:83-88 | The codes `A00` and `a00` both find `A00 Cholera` |
| Scenarios.UnknownCidCodeNotFound | main.py:89 | In that table the code `Z99` gives the CID not-found message |
| Scenarios.ConsultationFoundByCode | main.py:104-109 | The procedure `0301010015` is found by its code, with or without blanks around it |
| Scenarios.UnknownSigtapCodeNotFound | main.py:110 | In that table the code `0301010016` gives the SIGTAP not-found message |
| Scenarios.SigtapLookupIsCaseSensitive | main.py:106-108 | A procedure code stored as `ab` is found under `ab` but not under `AB` |
| Scenarios.EmptyTableSearch | main.py:76-80 | Searching an empty table gives count 0 and no results, not an error |

## Left out

- The FastAPI application, the CORS middleware, the route decorators and the `uvicorn` start-up (main.py:1-22, main.py:112-114) are left out. They are transport plumbing.
- `load_db` (main.py:30-57) is left out: the file-existence checks, the JSON parsing, the fallback to an empty table and the log lines. It is file I/O on module globals. The model takes the loaded tables as parameters instead of reading the globals `CID_DB` and `SIGTAP_DB`.
- The `home` endpoint (main.py:59-68) is left out. It only reports the two table sizes.
- HTTP status codes are left out. The 404 is the `NotFound` outcome. The 422 answer to a short query is the precondition "length of q at least 3" on `Tables.SearchCid` and `Tables.SearchSigtap`.
- Record fields whose JSON value is not a string (a number, or `null` that would make `.lower()` raise) are left out. Every field is a string.
- Concurrency between request workers is left out. The tables are read-only after loading, so it cannot change any answer.
- Text.Lower: maps only the ASCII letters A-Z to lower case. Python's `str.lower()` also folds non-ASCII letters, such as `É` to `é`, which are common in SIGTAP names. So a query differing from a name only in the case of an accented letter matches in the service but not in the model.
- Text.Upper: maps only the ASCII letters a-z to upper case. Python's `str.upper()` also maps non-ASCII letters, and some to several characters (`ß` to `SS`). CID codes are ASCII, so lookups of real codes are unaffected.
