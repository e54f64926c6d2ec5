/** The exact-code lookup behind `get_cid_by_code` and `get_sigtap_by_code`
    (main.py): a linear scan that returns the first record whose code field
    equals the normalised code, or a not-found message. */
module CodeLookup {
  import opened Records

  /** The record the endpoint returns, or the `HTTPException(404, message)` it raises. */
  datatype LookupResult = Found(record: Record) | NotFound(message: string)

  /** Position of the first record whose `field` equals `code`, or `|store|`
      when there is none. */
  function FirstIndex(store: seq<Record>, field: string, code: string): (i: nat)
    ensures i <= |store|
    ensures i < |store| ==> HasValue(store[i], field, code)
    ensures forall j :: 0 <= j < i ==> !HasValue(store[j], field, code)
  {
    if store == [] || HasValue(store[0], field, code) then 0
    else 1 + FirstIndex(store[1..], field, code)
  }

  /** What the scan yields: the first record whose `field` equals `code`,
      or `NotFound(notFound)` exactly when no record's `field` equals `code`. */
  function Find(store: seq<Record>, field: string, code: string, notFound: string): (r: LookupResult)
    ensures r.NotFound? <==> forall j :: 0 <= j < |store| ==> !HasValue(store[j], field, code)
    ensures r.NotFound? ==> r.message == notFound
    ensures r.Found? ==> exists i :: 0 <= i < |store| && store[i] == r.record && HasValue(store[i], field, code)
                                   && forall j :: 0 <= j < i ==> !HasValue(store[j], field, code)
  {
    var i := FirstIndex(store, field, code);
    if i < |store| then Found(store[i]) else NotFound(notFound)
  }

  /** The `for item in store: if item.get(field) == code: return item` loop,
      followed by the not-found signal. */
  method Scan(store: seq<Record>, field: string, code: string, notFound: string) returns (r: LookupResult)
    ensures r == Find(store, field, code, notFound)
  {
    for i := 0 to |store|
      invariant forall j :: 0 <= j < i ==> !HasValue(store[j], field, code)
    {
      if HasValue(store[i], field, code) {
        return Found(store[i]);
      }
    }
    return NotFound(notFound);
  }
}
