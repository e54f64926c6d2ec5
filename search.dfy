/** The substring search behind `search_cid` and `search_sigtap` (main.py):
    a case-insensitive filter over two fields of every record, in store
    order, reporting the total number of matches and the first fifty. */
module TextSearch {
  import opened Text
  import opened Records

  /** The slice `results[:50]`. */
  const MaxResults: nat := 50

  datatype SearchResult = SearchResult(count: nat, results: seq<Record>)

  /** The normalised query `q.lower().strip()`: no upper-case letter and no
      whitespace at either end, and the same as stripping first and then
      lower-casing. */
  function NormalizeQuery(q: string): (r: string)
    ensures |r| <= |q|
    ensures forall i :: 0 <= i < |r| ==> !IsUpperAscii(r[i])
    ensures r == [] || (!IsSpace(r[0]) && !IsSpace(r[|r| - 1]))
    ensures r == Lower(Strip(q))
  {
    StripLowerCommute(q);
    Strip(Lower(q))
  }

  /** The comprehension's condition: `query` occurs in the lower-cased
      `primary` field or in the lower-cased `secondary` field, a missing
      field reading as the empty string. */
  predicate Matches(rec: Record, query: string, primary: string, secondary: string): (b: bool)
    ensures b <==> ((exists i :: OccursAt(Lower(GetOr(rec, primary, "")), query, i))
                    || (exists i :: OccursAt(Lower(GetOr(rec, secondary, "")), query, i)))
    ensures primary !in rec && secondary !in rec ==> (b <==> query == "")
  {
    ContainsEmpty("", query);
    || Contains(Lower(GetOr(rec, primary, "")), query)
    || Contains(Lower(GetOr(rec, secondary, "")), query)
  }

  /** `s` is `t` with some elements left out and the rest kept in order. */
  predicate IsSubsequence(s: seq<Record>, t: seq<Record>)
    decreases |t|
  {
    if s == [] then true
    else if t == [] then false
    else (s[0] == t[0] && IsSubsequence(s[1..], t[1..])) || IsSubsequence(s, t[1..])
  }

  /** The list comprehension `[item for item in store if ...]`: the matching
      records of `store`, in store order, each as often as it occurs there. */
  function Matching(store: seq<Record>, query: string, primary: string, secondary: string): (m: seq<Record>)
    ensures |m| <= |store|
    ensures IsSubsequence(m, store)
    ensures forall rec :: multiset(m)[rec] == if Matches(rec, query, primary, secondary) then multiset(store)[rec] else 0
    ensures forall rec :: rec in m <==> rec in store && Matches(rec, query, primary, secondary)
  {
    if store == [] then []
    else
      var rest := Matching(store[1..], query, primary, secondary);
      assert store == [store[0]] + store[1..];
      if Matches(store[0], query, primary, secondary) then [store[0]] + rest else rest
  }

  /** Python's slice `s[:n]`: the first `n` elements, or all of `s` when it
      is shorter. */
  function Take(s: seq<Record>, n: nat): (r: seq<Record>)
    ensures |r| == if |s| <= n then |s| else n
    ensures r == s[..|r|]
  {
    if |s| <= n then s else s[..n]
  }

  /** `search_cid`/`search_sigtap` over `store` with the two searched fields:
      `count` is the number of all matches; `results` holds the first
      `min(count, 50)` of them, each a matching record of the store, in
      store order; below the cap nothing that matches is missing. */
  function Search(store: seq<Record>, q: string, primary: string, secondary: string): (r: SearchResult)
    ensures r.count == |Matching(store, NormalizeQuery(q), primary, secondary)| <= |store|
    ensures |r.results| == if r.count <= MaxResults then r.count else MaxResults
    ensures r.results == Matching(store, NormalizeQuery(q), primary, secondary)[..|r.results|]
    ensures IsSubsequence(r.results, store)
    ensures forall rec :: rec in r.results ==> rec in store && Matches(rec, NormalizeQuery(q), primary, secondary)
    ensures r.count <= MaxResults ==>
      forall rec :: rec in r.results <==> rec in store && Matches(rec, NormalizeQuery(q), primary, secondary)
  {
    var m := Matching(store, NormalizeQuery(q), primary, secondary);
    var taken := Take(m, MaxResults);
    PrefixIsSubsequence(m, store, |taken|);
    SearchResult(|m|, taken)
  }

  // ---- Properties ----

  /** A prefix of a subsequence is a subsequence. */
  lemma {:induction false} PrefixIsSubsequence(s: seq<Record>, t: seq<Record>, k: nat)
    requires IsSubsequence(s, t) && k <= |s|
    ensures IsSubsequence(s[..k], t)
    decreases |t|
  {
    if k > 0 {
      if s[0] == t[0] && IsSubsequence(s[1..], t[1..]) {
        assert s[..k][1..] == s[1..][..k - 1];
        PrefixIsSubsequence(s[1..], t[1..], k - 1);
      } else {
        PrefixIsSubsequence(s, t[1..], k);
      }
    }
  }

  /** A subsequence holds no element more often than the sequence it is taken from. */
  lemma {:induction false} SubsequenceCounts(s: seq<Record>, t: seq<Record>, x: Record)
    requires IsSubsequence(s, t)
    ensures multiset(s)[x] <= multiset(t)[x]
    decreases |t|
  {
    if s != [] {
      assert t == [t[0]] + t[1..];
      if s[0] == t[0] && IsSubsequence(s[1..], t[1..]) {
        assert s == [s[0]] + s[1..];
        SubsequenceCounts(s[1..], t[1..], x);
      } else {
        SubsequenceCounts(s, t[1..], x);
      }
    }
  }

  /** The filter is the only subsequence of the store that keeps every
      matching record and drops every other one: order and multiplicity
      leave no choice. */
  lemma {:induction false} MatchingIsUnique(store: seq<Record>, m: seq<Record>, query: string, primary: string, secondary: string)
    requires IsSubsequence(m, store)
    requires forall rec :: multiset(m)[rec] == if Matches(rec, query, primary, secondary) then multiset(store)[rec] else 0
    ensures m == Matching(store, query, primary, secondary)
    decreases |store|
  {
    if store == [] {
    } else {
      var s0 := store[0];
      var rest := store[1..];
      assert store == [s0] + rest;
      if Matches(s0, query, primary, secondary) {
        if m != [] && m[0] == s0 && IsSubsequence(m[1..], rest) {
          assert m == [s0] + m[1..];
          MatchingIsUnique(rest, m[1..], query, primary, secondary);
        } else {
          // m would skip the first copy of s0 and so hold fewer copies than the store
          if m != [] {
            SubsequenceCounts(m, rest, s0);
          }
          assert false;
        }
      } else {
        if m != [] && m[0] == s0 {
          assert false;
        }
        assert m == [] || IsSubsequence(m, rest);
        forall rec ensures multiset(m)[rec] == if Matches(rec, query, primary, secondary) then multiset(rest)[rec] else 0 {
        }
        MatchingIsUnique(rest, m, query, primary, secondary);
      }
    }
  }

  /** A record that lacks both searched fields matches exactly when the
      normalised query is empty. */
  lemma MissingFieldsMatchOnlyEmpty(rec: Record, query: string, primary: string, secondary: string)
    requires primary !in rec && secondary !in rec
    ensures Matches(rec, query, primary, secondary) <==> query == ""
  {
    ContainsEmpty("", query);
  }

  /** When the normalised query is empty every record matches: the count is
      the store's size and the results are its first fifty records. */
  lemma {:induction false} EmptyQueryMatchesAll(store: seq<Record>, primary: string, secondary: string)
    ensures Matching(store, "", primary, secondary) == store
  {
    if store != [] {
      ContainsEmpty(Lower(GetOr(store[0], primary, "")), "");
      EmptyQueryMatchesAll(store[1..], primary, secondary);
    }
  }

  /** Search does not distinguish upper- from lower-case letters in the query. */
  lemma SearchIgnoresQueryCase(store: seq<Record>, q: string, primary: string, secondary: string)
    ensures Search(store, Upper(q), primary, secondary) == Search(store, q, primary, secondary)
    ensures Search(store, Lower(q), primary, secondary) == Search(store, q, primary, secondary)
  {
    LowerOfUpper(q);
    assert Lower(Lower(q)) == Lower(q);
  }
}
