/**
 * URL and query-string construction of the datastore service
 * (toQueryString, makeUrl, buildUrl).
 *
 * `encodeURIComponent` is not modelled: every operation takes it as a
 * parameter `enc`. The only fact used about it is that its output never
 * contains '&' (it percent-encodes that character), see `EncodesAmpersand`.
 */
module QueryString {
  import opened Wrappers

  /**
   * A parameter value as toQueryString distinguishes it. Array elements and
   * object values are given as their JavaScript string conversions (what
   * `encodeURIComponent` receives). A `null` value takes the object branch
   * with no own keys, so it is `Object([])`.
   */
  datatype ParamValue =
    | Array(items: seq<string>)
    | Object(entries: seq<(string, string)>)
    | Scalar(text: string)

  /** The parameter object: its own enumerable keys in enumeration order. */
  type Params = seq<(string, ParamValue)>

  /** `encodeURIComponent` percent-encodes '&', so no output contains it. */
  ghost predicate EncodesAmpersand(enc: string -> string)
  {
    forall s :: '&' !in enc(s)
  }

  /** The `key=value` segments one parameter contributes, in order. */
  function Segments(key: string, value: ParamValue, enc: string -> string): seq<string>
  {
    match value
    case Array(items) => seq(|items|, i requires 0 <= i < |items| => key + "=" + enc(items[i]))
    case Object(entries) => seq(|entries|, i requires 0 <= i < |entries| => key + "[" + entries[i].0 + "]=" + enc(entries[i].1))
    case Scalar(text) => [key + "=" + enc(text)]
  }

  /** The segments of all parameters, parameter by parameter. */
  function AllSegments(params: Params, enc: string -> string): seq<string>
  {
    if params == [] then []
    else AllSegments(params[..|params| - 1], enc) + Segments(params[|params| - 1].0, params[|params| - 1].1, enc)
  }

  /** Segments separated by exactly one '&'. */
  function Join(segs: seq<string>): string
  {
    if segs == [] then ""
    else if |segs| == 1 then segs[0]
    else segs[0] + "&" + Join(segs[1..])
  }

  /** The query string toQueryString is specified to produce. */
  function QueryString(params: Params, enc: string -> string): string
  {
    Join(AllSegments(params, enc))
  }

  /** makeUrl: `url`, then "?" and the query string only when a parameter object is given. */
  function MakeUrl(url: string, params: Option<Params>, enc: string -> string): string
  {
    url + (if params.Some? then "?" else "") + (if params.Some? then QueryString(params.value, enc) else "")
  }

  /** The id token of buildUrl: "/" + id when the id is truthy, nothing otherwise. */
  function IdToken(id: Option<string>): string
  {
    if id.Some? && id.value != "" then "/" + id.value else ""
  }

  /** buildUrl: base URL and type name with no separator, the id token, then the makeUrl suffix. */
  function BuildUrl(baseUrl: string, typeName: string, id: Option<string>, params: Option<Params>, enc: string -> string): string
  {
    MakeUrl(baseUrl + typeName + IdToken(id), params, enc)
  }

  // ---------------------------------------------------------------------------
  // toQueryString as the source writes it: nested loops appending to a string.

  /** `s` is the text so far when the segments `segs` have been emitted and the last one is still open to a '&'. */
  ghost predicate Open(s: string, segs: seq<string>)
  {
    (segs == [] && s == "") || (segs != [] && s == Join(segs) + "&")
  }

  /** Either open, or the last segment emitted with no '&' after it yet. */
  ghost predicate Settled(s: string, segs: seq<string>)
  {
    Open(s, segs) || (segs != [] && s == Join(segs))
  }

  /** A segment that is non-empty and does not end in '&'. */
  ghost predicate Closed(seg: string)
  {
    seg != [] && seg[|seg| - 1] != '&'
  }

  method ToQueryString(params: Params, enc: string -> string) returns (encodedStr: string)
    requires EncodesAmpersand(enc)
    ensures encodedStr == QueryString(params, enc)
  {
    encodedStr := "";
    ghost var done: seq<string> := [];
    for n := 0 to |params|
      invariant done == AllSegments(params[..n], enc)
      invariant forall j :: 0 <= j < |done| ==> Closed(done[j])
      invariant Settled(encodedStr, done)
    {
      var key, value := params[n].0, params[n].1;
      assert params[..n + 1][..n] == params[..n];
      SeparatorOpens(encodedStr, done);
      if encodedStr != "" && encodedStr[|encodedStr| - 1] != '&' {
        encodedStr := encodedStr + "&";
      }
      encodedStr := AppendParameter(encodedStr, key, value, enc, done);
      ghost var segs := Segments(key, value, enc);
      SegmentsClosed(key, value, enc);
      done := done + segs;
    }
    assert params[..|params|] == params;
    if encodedStr != "" && encodedStr[|encodedStr| - 1] == '&' {
      JoinEndsWithLast(done);
      encodedStr := encodedStr[..|encodedStr| - 1];
    }
  }

  /** The body of toQueryString's loop for one key, after the separator step. */
  method AppendParameter(s: string, key: string, value: ParamValue, enc: string -> string, ghost done: seq<string>)
    returns (encodedStr: string)
    requires Open(s, done)
    ensures Settled(encodedStr, done + Segments(key, value, enc))
  {
    encodedStr := s;
    ghost var segs := Segments(key, value, enc);
    assert done + segs[..0] == done;
    match value {
      case Array(items) =>
        for i := 0 to |items|
          invariant Open(encodedStr, done + segs[..i])
        {
          var segment := key + "=" + enc(items[i]);
          ExtendOpen(encodedStr, done, segs, i, segment);
          encodedStr := encodedStr + segment + "&";
        }
        assert done + segs[..|items|] == done + segs;
      case Object(entries) =>
        for i := 0 to |entries|
          invariant Open(encodedStr, done + segs[..i])
        {
          var segment := key + "[" + entries[i].0 + "]=" + enc(entries[i].1);
          ExtendOpen(encodedStr, done, segs, i, segment);
          encodedStr := encodedStr + segment + "&";
        }
        assert done + segs[..|entries|] == done + segs;
      case Scalar(text) =>
        var segment := key + "=" + enc(text);
        JoinSnoc(done, segment);
        encodedStr := encodedStr + segment;
    }
  }

  /** The separator step of toQueryString leaves the text open. */
  lemma SeparatorOpens(s: string, done: seq<string>)
    requires Settled(s, done)
    requires forall j :: 0 <= j < |done| ==> Closed(done[j])
    ensures Open(if s != "" && s[|s| - 1] != '&' then s + "&" else s, done)
  {
    if done != [] && s == Join(done) {
      JoinEndsWithLast(done);
    }
  }

  /** Appending the next segment of `segs` and its '&' keeps the text open. */
  lemma ExtendOpen(s: string, done: seq<string>, segs: seq<string>, i: nat, segment: string)
    requires i < |segs| && segs[i] == segment
    requires Open(s, done + segs[..i])
    ensures Open(s + segment + "&", done + segs[..i + 1])
  {
    assert done + segs[..i + 1] == (done + segs[..i]) + [segment];
    JoinSnoc(done + segs[..i], segment);
  }

  // ---------------------------------------------------------------------------
  // Lemmas about the segments and their joining.

  lemma {:induction false} JoinSnoc(segs: seq<string>, x: string)
    ensures Join(segs + [x]) == if segs == [] then x else Join(segs) + "&" + x
  {
    if |segs| > 1 {
      assert (segs + [x])[1..] == segs[1..] + [x];
      JoinSnoc(segs[1..], x);
    } else if |segs| == 1 {
      assert (segs + [x])[1..] == [x];
    }
  }

  /** The joined text ends like its last segment. */
  lemma {:induction false} JoinEndsWithLast(segs: seq<string>)
    requires segs != [] && segs[|segs| - 1] != []
    ensures Join(segs) != [] && Join(segs)[|Join(segs)| - 1] == segs[|segs| - 1][|segs[|segs| - 1]| - 1]
  {
    if |segs| > 1 {
      JoinEndsWithLast(segs[1..]);
    }
  }

  /** No segment is empty or ends in '&' when `enc` never produces '&'. */
  lemma SegmentsClosed(key: string, value: ParamValue, enc: string -> string)
    requires EncodesAmpersand(enc)
    ensures forall j :: 0 <= j < |Segments(key, value, enc)| ==> Closed(Segments(key, value, enc)[j])
  {
    var segs := Segments(key, value, enc);
    forall j | 0 <= j < |segs| ensures Closed(segs[j]) {
      var e := match value
        case Array(items) => enc(items[j])
        case Object(entries) => enc(entries[j].1)
        case Scalar(text) => enc(text);
      assert '&' !in e;
      assert segs[j][|segs[j]| - |e| - 1..] == [ '=' ] + e;
      if e != [] {
        assert segs[j][|segs[j]| - 1] == e[|e| - 1];
      }
    }
  }

  /**
   * An array gives one `key=enc(v)` segment per element in element order (none for []),
   * an object one `key[inner]=enc(v)` per own key, a scalar exactly `key=enc(v)`.
   */
  lemma SegmentsOfOneParameter(key: string, value: ParamValue, enc: string -> string)
    ensures AllSegments([(key, value)], enc) == Segments(key, value, enc)
    ensures value.Array? ==> (|Segments(key, value, enc)| == |value.items|
      && forall i :: 0 <= i < |value.items| ==> Segments(key, value, enc)[i] == key + "=" + enc(value.items[i]))
    ensures value.Object? ==> (|Segments(key, value, enc)| == |value.entries|
      && forall i :: 0 <= i < |value.entries| ==>
        Segments(key, value, enc)[i] == key + "[" + value.entries[i].0 + "]=" + enc(value.entries[i].1))
    ensures value.Scalar? ==> QueryString([(key, value)], enc) == key + "=" + enc(value.text)
  {
    assert [(key, value)][..0] == [];
  }

  /** Splits a string at every '&'. */
  function Split(s: string): (parts: seq<string>)
    ensures |parts| >= 1
    decreases |s|
  {
    if '&' !in s then [s]
    else
      var i := FirstIndex(s, '&');
      [s[..i]] + Split(s[i + 1..])
  }

  /** The position of the first occurrence of `c` in `s`. */
  function FirstIndex(s: string, c: char): (i: nat)
    requires c in s
    ensures i < |s| && s[i] == c && c !in s[..i]
  {
    if s[0] == c then 0
    else
      assert c in s[1..] by { var k :| 0 <= k < |s| && s[k] == c; assert s[1..][k - 1] == c; }
      var j := FirstIndex(s[1..], c);
      assert s[..j + 1] == [s[0]] + s[1..][..j];
      j + 1
  }

  lemma {:induction false} FirstIndexUnique(s: string, c: char, i: nat)
    requires i < |s| && s[i] == c && c !in s[..i]
    ensures FirstIndex(s, c) == i
  {
    var f := FirstIndex(s, c);
  }

  /** Splitting at '&' recovers the segments that were joined, when none of them contains '&'. */
  lemma {:induction false} SplitJoin(segs: seq<string>)
    requires segs != []
    requires forall j :: 0 <= j < |segs| ==> '&' !in segs[j]
    ensures Split(Join(segs)) == segs
  {
    if |segs| > 1 {
      var s := Join(segs);
      var i := |segs[0]|;
      assert s == segs[0] + "&" + Join(segs[1..]);
      assert s[..i] == segs[0];
      assert s[i] == '&';
      FirstIndexUnique(s, '&', i);
      assert s[i + 1..] == Join(segs[1..]);
      SplitJoin(segs[1..]);
    }
  }

  /**
   * The query string splits at '&' into exactly the segments of the parameters,
   * provided the keys themselves contain no '&': segments are separated by exactly one '&'.
   */
  lemma QueryStringSplits(params: Params, enc: string -> string)
    requires EncodesAmpersand(enc)
    requires forall n :: 0 <= n < |params| ==> '&' !in params[n].0
    requires forall n :: 0 <= n < |params| && params[n].1.Object? ==>
      forall i :: 0 <= i < |params[n].1.entries| ==> '&' !in params[n].1.entries[i].0
    requires AllSegments(params, enc) != []
    ensures Split(QueryString(params, enc)) == AllSegments(params, enc)
  {
    SegmentsAmpersandFree(params, enc);
    SplitJoin(AllSegments(params, enc));
  }

  lemma {:induction false} SegmentsAmpersandFree(params: Params, enc: string -> string)
    requires EncodesAmpersand(enc)
    requires forall n :: 0 <= n < |params| ==> '&' !in params[n].0
    requires forall n :: 0 <= n < |params| && params[n].1.Object? ==>
      forall i :: 0 <= i < |params[n].1.entries| ==> '&' !in params[n].1.entries[i].0
    ensures forall j :: 0 <= j < |AllSegments(params, enc)| ==> '&' !in AllSegments(params, enc)[j]
  {
    if params != [] {
      var last := |params| - 1;
      SegmentsAmpersandFree(params[..last], enc);
      var key, value := params[last].0, params[last].1;
      var segs := Segments(key, value, enc);
      forall j | 0 <= j < |segs| ensures '&' !in segs[j] {
        match value
        case Array(items) =>
          assert segs[j] == key + "=" + enc(items[j]);
          assert '&' !in enc(items[j]);
        case Object(entries) =>
          assert segs[j] == key + "[" + entries[j].0 + "]=" + enc(entries[j].1);
          assert '&' !in enc(entries[j].1);
        case Scalar(text) =>
          assert '&' !in enc(text);
      }
    }
  }

  /** The query string is empty exactly when no parameter contributes a segment. */
  lemma QueryStringEmpty(params: Params, enc: string -> string)
    requires EncodesAmpersand(enc)
    ensures QueryString(params, enc) == "" <==> AllSegments(params, enc) == []
  {
    var segs := AllSegments(params, enc);
    if segs != [] {
      AllSegmentsClosed(params, enc);
      JoinEndsWithLast(segs);
    }
  }

  lemma {:induction false} AllSegmentsClosed(params: Params, enc: string -> string)
    requires EncodesAmpersand(enc)
    ensures forall j :: 0 <= j < |AllSegments(params, enc)| ==> Closed(AllSegments(params, enc)[j])
  {
    if params != [] {
      var last := |params| - 1;
      AllSegmentsClosed(params[..last], enc);
      SegmentsClosed(params[last].0, params[last].1, enc);
    }
  }

  /** The worked example: `{tag: ["a", "b"], page: {size: 2}}` gives `tag=a&tag=b&page[size]=2`. */
  lemma TagAndPageExample(enc: string -> string)
    requires enc("a") == "a" && enc("b") == "b" && enc("2") == "2"
    ensures QueryString([("tag", Array(["a", "b"])), ("page", Object([("size", "2")]))], enc)
      == "tag=a&tag=b&page[size]=2"
  {
    var p := [("tag", Array(["a", "b"])), ("page", Object([("size", "2")]))];
    var segs := ["tag=a", "tag=b", "page[size]=2"];
    ExampleSegments(p, enc);
    assert AllSegments(p, enc) == segs;
    ExampleJoin(segs);
  }

  /** The segments of the example: the two tag items, then the page entry. */
  lemma ExampleSegments(p: Params, enc: string -> string)
    requires enc("a") == "a" && enc("b") == "b" && enc("2") == "2"
    requires p == [("tag", Array(["a", "b"])), ("page", Object([("size", "2")]))]
    ensures AllSegments(p, enc) == ["tag=a", "tag=b"] + ["page[size]=2"]
  {
    assert p[..1] == [("tag", Array(["a", "b"]))];
    assert p[..1][..0] == [];
    var tags := Segments("tag", Array(["a", "b"]), enc);
    assert |tags| == 2 && tags[0] == "tag" + "=" + enc("a") && tags[1] == "tag" + "=" + enc("b");
    assert "tag" + "=" + "a" == "tag=a" && "tag" + "=" + "b" == "tag=b";
    assert tags == ["tag=a", "tag=b"];
    var page := Segments("page", Object([("size", "2")]), enc);
    assert |page| == 1 && page[0] == "page" + "[" + "size" + "]=" + enc("2");
    assert "page" + "[" + "size" + "]=" + "2" == "page[size]=2";
    assert page == ["page[size]=2"];
    assert AllSegments(p[..1], enc) == AllSegments(p[..1][..0], enc) + tags;
    assert AllSegments(p, enc) == AllSegments(p[..1], enc) + page;
  }

  /** Joining the example's three segments. */
  lemma ExampleJoin(segs: seq<string>)
    requires segs == ["tag=a", "tag=b", "page[size]=2"]
    ensures Join(segs) == "tag=a&tag=b&page[size]=2"
  {
    assert segs[1..] == ["tag=b", "page[size]=2"];
    assert segs[1..][1..] == ["page[size]=2"];
    assert Join(segs[1..][1..]) == "page[size]=2";
    assert Join(segs[1..]) == "tag=b" + "&" + "page[size]=2";
    assert Join(segs) == "tag=a" + "&" + ("tag=b" + "&" + "page[size]=2");
  }

  // ---------------------------------------------------------------------------
  // URLs: the part before the first '?' and the query after it.

  /** The text before the first '?', or all of `u`. */
  function PathOf(u: string): string
  {
    if '?' in u then u[..FirstIndex(u, '?')] else u
  }

  /** The text after the first '?', if there is one. */
  function QueryOf(u: string): Option<string>
  {
    if '?' in u then Some(u[FirstIndex(u, '?') + 1..]) else None
  }

  /**
   * makeUrl keeps `url` as the path and adds a query exactly when a parameter
   * object is given (even an empty one): absent parameters give `url` itself.
   */
  lemma MakeUrlParts(url: string, params: Option<Params>, enc: string -> string)
    requires '?' !in url
    ensures PathOf(MakeUrl(url, params, enc)) == url
    ensures QueryOf(MakeUrl(url, params, enc)) == if params.Some? then Some(QueryString(params.value, enc)) else None
    ensures params.None? ==> MakeUrl(url, params, enc) == url
  {
    var u := MakeUrl(url, params, enc);
    if params.Some? {
      assert u[|url|] == '?';
      assert u[..|url|] == url;
      FirstIndexUnique(u, '?', |url|);
      assert u[|url| + 1..] == QueryString(params.value, enc);
    } else {
      assert u == url;
    }
  }

  /**
   * buildUrl's path is the base URL, the type name and "/" + id only for a
   * non-empty id; the query is that of makeUrl.
   */
  lemma BuildUrlParts(baseUrl: string, typeName: string, id: Option<string>, params: Option<Params>, enc: string -> string)
    requires '?' !in baseUrl && '?' !in typeName && (id.Some? ==> '?' !in id.value)
    ensures PathOf(BuildUrl(baseUrl, typeName, id, params, enc))
      == baseUrl + typeName + (if id.Some? && id.value != "" then "/" + id.value else "")
    ensures QueryOf(BuildUrl(baseUrl, typeName, id, params, enc))
      == if params.Some? then Some(QueryString(params.value, enc)) else None
  {
    var path := baseUrl + typeName + IdToken(id);
    MakeUrlParts(path, params, enc);
  }
}
