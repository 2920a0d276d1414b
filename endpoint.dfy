/** `buildEndpoint`, defined identically in src/store/vehicleStore.ts and
    src/hooks/useServiceCatalog.ts: a path with the defined, non-empty query
    parameters appended. */
module Endpoint {
  import opened Wrappers
  import opened Text
  import opened Seqs

  /** A parameter value: a string, a number, `undefined` or `null`. */
  datatype ParamValue = Str(s: string) | Number(n: int) | Undefined | Null

  /** `URLSearchParams` form encoding, which is not part of this model. */
  type Encoder = string -> string

  /** `Object.entries(params)`: key and value pairs, keys distinct. */
  type Params = seq<(string, ParamValue)>

  function Keys(params: Params): seq<string> {
    MapSeq(params, (p: (string, ParamValue)) => p.0)
  }

  /** `String(value)` */
  function ValueString(v: ParamValue): string {
    match v
    case Str(s) => s
    case Number(n) => IntToString(n)
    case Undefined => "undefined"
    case Null => "null"
  }

  /** A parameter is skipped when its value is `undefined`, `null` or `''`. */
  predicate Omitted(v: ParamValue) { v.Undefined? || v.Null? || v == Str("") }

  /** What `searchParams.set` records for one entry, if anything. */
  function SearchEntry(p: (string, ParamValue)): Option<(string, string)> {
    if Omitted(p.1) then None else Some((p.0, ValueString(p.1)))
  }

  /** The search parameters after the `forEach`, in entry order. */
  function SearchPairs(params: Params): seq<(string, string)> {
    FilterMap(params, SearchEntry)
  }

  function PairTexts(pairs: seq<(string, string)>, enc: Encoder): (r: seq<string>)
    ensures |r| == |pairs|
    ensures forall i :: 0 <= i < |pairs| ==> r[i] == enc(pairs[i].0) + "=" + enc(pairs[i].1)
  {
    seq(|pairs|, i requires 0 <= i < |pairs| => enc(pairs[i].0) + "=" + enc(pairs[i].1))
  }

  /** `searchParams.toString()` */
  function QueryString(pairs: seq<(string, string)>, enc: Encoder): string {
    Join(PairTexts(pairs, enc), "&")
  }

  /** The endpoint `buildEndpoint` returns. */
  function Endpoint(path: string, params: Option<Params>, enc: Encoder): string {
    if params.None? then path
    else
      var query := QueryString(SearchPairs(params.value), enc);
      if query == [] then path else path + "?" + query
  }

  /** `buildEndpoint`: collects the kept parameters with `set` in a `forEach`
      (each key is new, since object keys are distinct), then appends the
      query string when it is non-empty. */
  method BuildEndpoint(path: string, params: Option<Params>, enc: Encoder) returns (endpoint: string)
    requires params.Some? ==> NoDup(Keys(params.value))
    ensures endpoint == Endpoint(path, params, enc)
  {
    if params.None? {
      return path;
    }
    var entries := params.value;
    var searchParams: seq<(string, string)> := [];
    for i := 0 to |entries|
      invariant searchParams == SearchPairs(entries[..i])
    {
      FilterMapSnoc(entries, i, SearchEntry);
      var (key, value) := entries[i];
      if !(value.Undefined? || value.Null? || value == Str("")) {
        searchParams := searchParams + [(key, ValueString(value))];
      }
    }
    TakeAll(entries);
    var queryString := QueryString(searchParams, enc);
    endpoint := if queryString != [] then path + "?" + queryString else path;
  }

  /** Without parameters the path is returned unchanged. */
  lemma EndpointWithoutParams(path: string, enc: Encoder)
    ensures Endpoint(path, None, enc) == path
  {
  }

  /** A `?` is appended exactly when some parameter is kept, and then the
      query follows it. */
  lemma EndpointQuestionMark(path: string, params: Params, enc: Encoder)
    ensures (forall i :: 0 <= i < |params| ==> Omitted(params[i].1)) ==> Endpoint(path, Some(params), enc) == path
    ensures (exists i :: 0 <= i < |params| && !Omitted(params[i].1)) ==>
      var query := QueryString(SearchPairs(params), enc);
      query != [] && Endpoint(path, Some(params), enc) == path + "?" + query
  {
    var pairs := SearchPairs(params);
    var texts := PairTexts(pairs, enc);
    JoinEmpty(texts, "&");
    if forall i :: 0 <= i < |params| ==> Omitted(params[i].1) {
      if pairs != [] {
        FilterMapMembers(params, SearchEntry, pairs[0]);
      }
    }
    if i :| 0 <= i < |params| && !Omitted(params[i].1) {
      FilterMapMembers(params, SearchEntry, SearchEntry(params[i]).value);
    }
  }

  /** The query holds exactly the parameters whose value is not omitted,
      each with its `String` form: `undefined`, `null` and `''` never
      appear. */
  lemma SearchPairsMembers(params: Params, key: string, value: string)
    ensures (key, value) in SearchPairs(params) <==>
      exists i :: (0 <= i < |params| && params[i].0 == key && !Omitted(params[i].1)
                   && ValueString(params[i].1) == value)
  {
    FilterMapMembers(params, SearchEntry, (key, value));
  }
}
