/** How the resource clients build request URLs, and a reader for them.

    Every list call builds `${root}/${resource}?page=${page}&size=${size}` and
    then appends `&key=value` for each optional filter whose value is truthy,
    in a fixed order, without encoding the value. `ParseUrl` reads a URL back
    into its path and raw `key=value` pairs (no percent-decoding), splitting
    at the first `#`, then the first `?`, then every `&`, then each pair's
    first `=`, and skipping empty pairs; the lemmas below show the builders
    and the reader agree whenever the inserted values are free of `&` and `#`. */
module Urls {
  import opened Common

  /** An optional filter: its query key and the caller's value. */
  type QueryFilter = (string, Option<string>)

  /** `url += `&${k}=${v}`` for every truthy filter, in order. */
  function AppendFilters(url: string, filters: seq<QueryFilter>): string
    decreases |filters|
  {
    if filters == [] then url
    else
      var next := if Truthy(filters[0].1) then url + "&" + filters[0].0 + "=" + filters[0].1.value else url;
      AppendFilters(next, filters[1..])
  }

  /** The list URL of a resource client. */
  function ListUrl(root: string, resource: string, page: nat, size: nat, filters: seq<QueryFilter>): string {
    AppendFilters(root + "/" + resource + "?" + "page=" + Dec(page) + "&" + "size=" + Dec(size), filters)
  }

  /** Appending filters only ever extends the URL. */
  lemma {:induction false} AppendFiltersExtends(url: string, filters: seq<QueryFilter>)
    ensures |AppendFilters(url, filters)| >= |url| && AppendFilters(url, filters)[..|url|] == url
    decreases |filters|
  {
    if filters != [] {
      var next := if Truthy(filters[0].1) then url + "&" + filters[0].0 + "=" + filters[0].1.value else url;
      AppendFiltersExtends(next, filters[1..]);
      assert next[..|url|] == url;
    }
  }

  /** A list URL starts with its root. */
  lemma ListUrlExtendsRoot(root: string, resource: string, page: nat, size: nat, filters: seq<QueryFilter>)
    ensures var u := ListUrl(root, resource, page, size, filters);
            |u| >= |root| && u == root + u[|root|..]
  {
    var head := root + "/" + resource + "?" + "page=" + Dec(page) + "&" + "size=" + Dec(size);
    AppendFiltersExtends(head, filters);
    var u := ListUrl(root, resource, page, size, filters);
    assert u[..|root|] == u[..|head|][..|root|];
  }

  /** The `(key, value)` pairs the truthy filters contribute, in order. */
  function KeptFilters(filters: seq<QueryFilter>): seq<(string, string)>
    decreases |filters|
  {
    if filters == [] then []
    else
      (if Truthy(filters[0].1) then [(filters[0].0, filters[0].1.value)] else [])
      + KeptFilters(filters[1..])
  }

  // ---------------------------------------------------------------------------
  // Reading URLs back

  datatype ParsedUrl = ParsedUrl(path: string, query: seq<(string, string)>)

  /** A `key=value` pair split at its first `=`; a bare key has value "". */
  function ParsePair(part: string): (string, string) {
    var (k, v) := SplitFirst(part, '=');
    (k, v.GetOr(""))
  }

  function ParsePairs(parts: seq<string>): (r: seq<(string, string)>)
    ensures |r| == |parts|
    ensures forall i :: 0 <= i < |parts| ==> r[i] == ParsePair(parts[i])
  {
    seq(|parts|, i requires 0 <= i < |parts| => ParsePair(parts[i]))
  }

  function NonEmpty(s: string): bool { s != "" }

  function ParseQuery(q: string): seq<(string, string)> {
    ParsePairs(Filter(Split(q, '&'), NonEmpty))
  }

  function ParseUrl(url: string): ParsedUrl {
    var withoutFragment := SplitFirst(url, '#').0;
    var (path, query) := SplitFirst(withoutFragment, '?');
    ParsedUrl(path, if query.Some? then ParseQuery(query.value) else [])
  }

  // ---------------------------------------------------------------------------
  // What may be inserted without changing how the URL reads

  /** A path root with no query or fragment of its own. */
  predicate SafeRoot(root: string) {
    '?' !in root && '#' !in root
  }

  /** A value that cannot end its pair early or start a fragment. */
  predicate SafeValue(v: string) {
    '&' !in v && '#' !in v
  }

  /** A query key: non-empty, and no `=`, `&` or `#`. */
  predicate SafeKey(k: string) {
    k != "" && '=' !in k && '&' !in k && '#' !in k
  }

  predicate SafeFilters(filters: seq<QueryFilter>) {
    forall i :: 0 <= i < |filters| ==>
      SafeKey(filters[i].0) && (filters[i].1.Some? ==> SafeValue(filters[i].1.value))
  }

  /** The raw `key=value` texts of a sequence of pairs. */
  function PairTexts(pairs: seq<(string, string)>): (r: seq<string>)
    ensures |r| == |pairs|
    ensures forall i :: 0 <= i < |pairs| ==> r[i] == pairs[i].0 + "=" + pairs[i].1
  {
    seq(|pairs|, i requires 0 <= i < |pairs| => pairs[i].0 + "=" + pairs[i].1)
  }

  predicate SafePairs(pairs: seq<(string, string)>) {
    forall i :: 0 <= i < |pairs| ==> SafeKey(pairs[i].0) && SafeValue(pairs[i].1)
  }

  lemma {:induction false} KeptFiltersSafe(filters: seq<QueryFilter>)
    requires SafeFilters(filters)
    ensures SafePairs(KeptFilters(filters))
    decreases |filters|
  {
    if filters != [] {
      KeptFiltersSafe(filters[1..]);
    }
  }

  /** Appending the truthy filters extends the `&`-joined pair list. */
  lemma {:induction false} AppendFiltersJoin(prefix: string, pairs: seq<(string, string)>, filters: seq<QueryFilter>)
    requires |pairs| >= 1
    ensures AppendFilters(prefix + Join(PairTexts(pairs), '&'), filters)
         == prefix + Join(PairTexts(pairs + KeptFilters(filters)), '&')
    decreases |filters|
  {
    if filters == [] {
      assert pairs + KeptFilters(filters) == pairs;
    } else {
      var f := filters[0];
      var kept := if Truthy(f.1) then [(f.0, f.1.value)] else [];
      var pairs' := pairs + kept;
      assert pairs + KeptFilters(filters) == pairs' + KeptFilters(filters[1..]);
      if Truthy(f.1) {
        var texts := PairTexts(pairs);
        assert PairTexts(pairs')[..|pairs'| - 1] == texts;
        assert Join(PairTexts(pairs'), '&') == Join(texts, '&') + "&" + (f.0 + "=" + f.1.value);
        assert prefix + Join(texts, '&') + "&" + f.0 + "=" + f.1.value
            == prefix + Join(PairTexts(pairs'), '&');
      } else {
        assert pairs' == pairs;
      }
      AppendFiltersJoin(prefix, pairs', filters[1..]);
    }
  }

  /** A path followed by `?` and `&`-joined non-empty parts free of `&` and
      `#` reads back as that path and the parts, each split at its first `=`. */
  lemma JoinedQueryParses(path: string, texts: seq<string>)
    requires SafeRoot(path) && |texts| >= 1
    requires forall k :: 0 <= k < |texts| ==> '&' !in texts[k] && '#' !in texts[k] && texts[k] != ""
    ensures ParseUrl(path + "?" + Join(texts, '&')) == ParsedUrl(path, ParsePairs(texts))
  {
    var q := Join(texts, '&');
    JoinFree(texts, '&', '#');
    var url := path + "?" + q;
    assert '#' !in url;
    SplitFirstAbsent(url, '#');
    SplitFirstAt(path, '?', q);
    SplitJoin(texts, '&');
    FilterAll(texts, NonEmpty);
  }

  /** A path followed by `?` and `&`-joined safe pairs reads back as exactly
      that path and those pairs. */
  lemma QueryUrlParses(path: string, pairs: seq<(string, string)>)
    requires SafeRoot(path)
    requires |pairs| >= 1 && SafePairs(pairs)
    ensures ParseUrl(path + "?" + Join(PairTexts(pairs), '&')) == ParsedUrl(path, pairs)
  {
    var texts := PairTexts(pairs);
    forall k | 0 <= k < |texts|
      ensures '&' !in texts[k] && '#' !in texts[k] && texts[k] != ""
    {
      assert texts[k] == pairs[k].0 + "=" + pairs[k].1;
    }
    JoinedQueryParses(path, texts);
    forall k | 0 <= k < |texts|
      ensures ParsePair(texts[k]) == pairs[k]
    {
      SplitFirstAt(pairs[k].0, '=', pairs[k].1);
    }
  }

  /** A path with no `?` or `#` reads back as that path and no pairs. */
  lemma PlainUrlParses(path: string)
    requires SafeRoot(path)
    ensures ParseUrl(path) == ParsedUrl(path, [])
  {
    SplitFirstAbsent(path, '#');
    SplitFirstAbsent(path, '?');
  }

  /** The two pairs every list URL starts with. */
  function PageAndSize(page: nat, size: nat): seq<(string, string)> {
    [("page", Dec(page)), ("size", Dec(size))]
  }

  /** Decimal renderings are safe query values. */
  lemma PageAndSizeSafe(page: nat, size: nat)
    ensures SafePairs(PageAndSize(page, size))
  {
    var p := Dec(page);
    var z := Dec(size);
    assert forall i :: 0 <= i < |p| ==> p[i] != '&' && p[i] != '#';
    assert forall i :: 0 <= i < |z| ==> z[i] != '&' && z[i] != '#';
  }

  /** The fixed part of a list URL is the path, `?`, and the page and size pairs. */
  lemma ListUrlHead(path: string, page: nat, size: nat)
    ensures path + "?" + "page=" + Dec(page) + "&" + "size=" + Dec(size)
         == (path + "?") + Join(PairTexts(PageAndSize(page, size)), '&')
  {
    var p := "page=" + Dec(page);
    var z := "size=" + Dec(size);
    var texts := PairTexts(PageAndSize(page, size));
    assert "page" + "=" == "page=" && "size" + "=" == "size=";
    assert texts[0] == p && texts[1] == z;
    assert texts == [p] + [z];
    JoinSnoc([p], '&', z);
    assert path + "?" + "page=" + Dec(page) + "&" + "size=" + Dec(size) == (path + "?") + (p + "&" + z);
  }

  /** A list URL is its path, `?`, and the `&`-joined texts of the page and
      size pairs followed by the truthy filters. */
  lemma ListUrlAsJoin(root: string, resource: string, page: nat, size: nat, filters: seq<QueryFilter>)
    ensures ListUrl(root, resource, page, size, filters)
         == root + "/" + resource + "?" + Join(PairTexts(PageAndSize(page, size) + KeptFilters(filters)), '&')
  {
    var path := root + "/" + resource;
    ListUrlHead(path, page, size);
    AppendFiltersJoin(path + "?", PageAndSize(page, size), filters);
  }

  /** A list URL reads back as `root/resource` with `page`, `size` and then
      exactly the truthy filters, in the order given, values unchanged. */
  lemma ListUrlParses(root: string, resource: string, page: nat, size: nat, filters: seq<QueryFilter>)
    requires SafeRoot(root) && SafeRoot(resource)
    requires SafeFilters(filters)
    ensures ParseUrl(ListUrl(root, resource, page, size, filters))
         == ParsedUrl(root + "/" + resource, PageAndSize(page, size) + KeptFilters(filters))
  {
    var path := root + "/" + resource;
    var all := PageAndSize(page, size) + KeptFilters(filters);
    ListUrlAsJoin(root, resource, page, size, filters);
    PageAndSizeSafe(page, size);
    KeptFiltersSafe(filters);
    assert SafePairs(all);
    QueryUrlParses(path, all);
  }

  /** `${path}?${key}=${value}`: a fixed sub-path with one parameter. */
  function WithParam(path: string, key: string, value: string): string {
    path + "?" + key + "=" + value
  }

  /** A path with a single `?key=value` reads back as that one pair. */
  lemma SingleParamParses(path: string, key: string, value: string)
    requires SafeRoot(path) && SafeKey(key) && SafeValue(value)
    ensures ParseUrl(WithParam(path, key, value)) == ParsedUrl(path, [(key, value)])
  {
    assert Join(PairTexts([(key, value)]), '&') == key + "=" + value;
    assert WithParam(path, key, value) == path + "?" + Join(PairTexts([(key, value)]), '&');
    QueryUrlParses(path, [(key, value)]);
  }

  /** An unencoded parameter value holding `&` reads back as two pairs: the
      key with the text before the `&`, and the text after it as a bare key. */
  lemma ParamValueSplits(path: string, key: string, before: string, after: string)
    requires SafeRoot(path) && SafeKey(key) && SafeValue(before) && SafeKey(after)
    ensures ParseUrl(WithParam(path, key, before + "&" + after)).query == [(key, before), (after, "")]
  {
    var first := key + "=" + before;
    assert PairTexts([(key, before)]) == [first];
    JoinSnoc([first], '&', after);
    assert [first] + [after] == [first, after];
    assert WithParam(path, key, before + "&" + after) == path + "?" + Join([first] + [after], '&');
    ValueSplitParses(path, [(key, before)], after);
  }

  /** The `status` key shared by the status and verification calls. */
  lemma StatusKeyIsSafe()
    ensures SafeKey("status")
  {
  }

  /** Because values are inserted unencoded, a value holding `&` is read back
      as two pairs: the filter's own and whatever follows the `&`. */
  lemma UnencodedValueSplits(root: string, resource: string, page: nat, size: nat,
                             key: string, before: string, after: string)
    requires SafeRoot(root) && SafeRoot(resource) && SafeKey(key)
    requires SafeKey(after) && SafeValue(before)
    ensures ParseUrl(ListUrl(root, resource, page, size, [(key, Some(before + "&" + after))])).query
         == PageAndSize(page, size) + [(key, before), (after, "")]
  {
    var filters := [(key, Some(before + "&" + after))];
    var head := PageAndSize(page, size);
    var pairs := head + [(key, before)];
    ListUrlAsJoin(root, resource, page, size, filters);
    var headTexts := PairTexts(head);
    var split := PairTexts(pairs) + [after];
    assert KeptFilters(filters) == [(key, before + "&" + after)] + KeptFilters([]);
    var last := key + "=" + (before + "&" + after);
    assert last == (key + "=" + before) + ['&'] + after;
    assert PairTexts(head + KeptFilters(filters)) == headTexts + [last];
    assert split == headTexts + [key + "=" + before] + [after];
    JoinSplitLast(headTexts, '&', key + "=" + before, after);
    PageAndSizeSafe(page, size);
    assert SafePairs(pairs);
    ValueSplitParses(root + "/" + resource, pairs, after);
  }

  /** Safe pairs followed by a bare safe key read back as those pairs and
      the key with an empty value. */
  lemma ValueSplitParses(path: string, pairs: seq<(string, string)>, after: string)
    requires SafeRoot(path) && SafePairs(pairs) && |pairs| >= 1 && SafeKey(after)
    ensures ParseUrl(path + "?" + Join(PairTexts(pairs) + [after], '&')).query == pairs + [(after, "")]
  {
    var split := PairTexts(pairs) + [after];
    SplitTextsSafe(pairs, after);
    JoinedQueryParses(path, split);
    SplitTextsRead(pairs, after);
  }

  lemma SplitTextsSafe(pairs: seq<(string, string)>, after: string)
    requires SafePairs(pairs) && SafeKey(after)
    ensures var split := PairTexts(pairs) + [after];
            forall k :: 0 <= k < |split| ==> '&' !in split[k] && '#' !in split[k] && split[k] != ""
  {
    var split := PairTexts(pairs) + [after];
    forall k | 0 <= k < |split|
      ensures '&' !in split[k] && '#' !in split[k] && split[k] != ""
    {
      if k < |pairs| {
        assert split[k] == pairs[k].0 + "=" + pairs[k].1;
      }
    }
  }

  lemma SplitTextsRead(pairs: seq<(string, string)>, after: string)
    requires SafePairs(pairs) && SafeKey(after)
    ensures ParsePairs(PairTexts(pairs) + [after]) == pairs + [(after, "")]
  {
    var split := PairTexts(pairs) + [after];
    var r := ParsePairs(split);
    forall k | 0 <= k < |pairs|
      ensures r[k] == pairs[k]
    {
      assert split[k] == pairs[k].0 + "=" + pairs[k].1;
      SplitFirstAt(pairs[k].0, '=', pairs[k].1);
    }
    SplitFirstAbsent(after, '=');
    assert r[|pairs|] == (after, "");
  }

  // ---------------------------------------------------------------------------
  // Fixed sub-paths

  /** `${root}/${resource}/${id}`. */
  function ItemUrl(root: string, resource: string, id: int): string {
    root + "/" + resource + "/" + IntStr(id)
  }

  /** A rendered integer is a plain path segment and a plain query value. */
  lemma IntStrPlain(n: int)
    ensures SafeRoot(IntStr(n)) && SafeValue(IntStr(n)) && '=' !in IntStr(n)
  {
    var d := Dec(if n < 0 then -n else n);
    assert forall i :: 0 <= i < |d| ==> IsAsciiDigit(d[i]);
    assert '?' !in d && '#' !in d && '&' !in d && '=' !in d;
    if n < 0 {
      assert IntStr(n) == "-" + d;
    }
  }

  /** An item URL has no query of its own. */
  lemma ItemUrlParses(root: string, resource: string, id: int)
    requires SafeRoot(root) && SafeRoot(resource)
    ensures ParseUrl(ItemUrl(root, resource, id)) == ParsedUrl(ItemUrl(root, resource, id), [])
  {
    IntStrPlain(id);
    PlainUrlParses(ItemUrl(root, resource, id));
  }

  // ---------------------------------------------------------------------------
  // JavaScript argument values

  /** An argument a caller may pass for an optional filter: `null`, a number
      or a string. */
  datatype Arg = Null | Num(n: int) | Str(s: string)

  predicate ArgTruthy(a: Arg) {
    match a
    case Null => false
    case Num(n) => n != 0
    case Str(s) => s != ""
  }

  /** The filter an argument makes: its `${value}` text when it is truthy. */
  function ArgFilter(key: string, a: Arg): (f: QueryFilter)
    ensures f.0 == key
    ensures Truthy(f.1) <==> ArgTruthy(a)
    ensures a.Num? && ArgTruthy(a) ==> f.1 == Some(IntStr(a.n))
    ensures a.Str? && ArgTruthy(a) ==> f.1 == Some(a.s)
  {
    match a
    case Null => (key, None)
    case Num(n) => (key, if n != 0 then Some(IntStr(n)) else None)
    case Str(s) => (key, if s != "" then Some(s) else None)
  }

  /** The pairs two filters contribute: the first one's, then the second's,
      each only when its value is truthy. */
  lemma KeptTwo(a: QueryFilter, b: QueryFilter)
    ensures KeptFilters([a, b])
         == (if Truthy(a.1) then [(a.0, a.1.value)] else [])
          + (if Truthy(b.1) then [(b.0, b.1.value)] else [])
  {
    assert [a, b][1..] == [b];
    KeptOne(b);
  }

  lemma KeptOne(a: QueryFilter)
    ensures KeptFilters([a]) == (if Truthy(a.1) then [(a.0, a.1.value)] else [])
  {
    assert [a][1..] == [];
  }

  /** A list URL with two optional filters reads back as page, size, and
      each filter's pair only when its value is truthy. */
  lemma ListUrlTwoParses(root: string, resource: string, page: nat, size: nat, a: QueryFilter, b: QueryFilter)
    requires SafeRoot(root) && SafeRoot(resource) && SafeFilters([a, b])
    ensures ParseUrl(ListUrl(root, resource, page, size, [a, b]))
         == ParsedUrl(root + "/" + resource,
              [("page", Dec(page)), ("size", Dec(size))]
              + (if Truthy(a.1) then [(a.0, a.1.value)] else [])
              + (if Truthy(b.1) then [(b.0, b.1.value)] else []))
  {
    ListUrlParses(root, resource, page, size, [a, b]);
    KeptTwo(a, b);
  }

  /** A list URL with one optional filter reads back as page, size, and the
      filter's pair only when its value is truthy. */
  lemma ListUrlOneParses(root: string, resource: string, page: nat, size: nat, a: QueryFilter)
    requires SafeRoot(root) && SafeRoot(resource) && SafeFilters([a])
    ensures ParseUrl(ListUrl(root, resource, page, size, [a]))
         == ParsedUrl(root + "/" + resource,
              [("page", Dec(page)), ("size", Dec(size))]
              + (if Truthy(a.1) then [(a.0, a.1.value)] else []))
  {
    ListUrlParses(root, resource, page, size, [a]);
    KeptOne(a);
  }
}
