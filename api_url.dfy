/**
 * The URL builder of the API client: an endpoint name is looked up in the
 * registry (falling back to the name itself as a template), every
 * non-null path parameter replaces the first ":key" in the template, the
 * tokens left over are reported as a warning, and the query string is
 * appended after a '?' when it is not empty.
 */
module ApiUrl {
  import opened JsText
  import opened UriEncoding

  /** A JavaScript value used as a path or query parameter. */
  datatype Scalar = Null | Undefined | Bool(b: bool) | Num(n: int) | Str(s: string)

  /** A query parameter: a single value or an array of values. */
  datatype QueryValue = One(v: Scalar) | Many(items: seq<Scalar>)

  /** Endpoint names to URL templates. */
  type Registry = map<string, string>

  predicate IsNullish(v: Scalar) { v.Null? || v.Undefined? }

  /** String(v): the text that encodeURIComponent receives. */
  function ScalarText(v: Scalar): string
  {
    match v
    case Null => "null"
    case Undefined => "undefined"
    case Bool(b) => if b then "true" else "false"
    case Num(n) => if n < 0 then "-" + NatToString(-n) else NatToString(n)
    case Str(s) => s
  }

  /** `API_ENDPOINTS[endpoint] || endpoint`: an empty registry entry counts as a miss. */
  function Template(registry: Registry, endpoint: string): string
  {
    if endpoint in registry && registry[endpoint] != "" then registry[endpoint] else endpoint
  }

  // ---------------------------------------------------------------------------
  // Path parameters
  // ---------------------------------------------------------------------------

  /** One step of the substitution loop. */
  function Substitute(url: string, key: string, value: Scalar): string
  {
    if IsNullish(value) then url
    else ReplaceFirst(url, ":" + key, EncodeURIComponent(ScalarText(value)))
  }

  /** The substitution loop over the parameters, in their enumeration order. */
  function SubstituteAll(url: string, params: seq<(string, Scalar)>): string
    decreases |params|
  {
    if params == [] then url
    else SubstituteAll(Substitute(url, params[0].0, params[0].1), params[1..])
  }

  /** Substituting two lists of parameters one after the other is substituting their concatenation. */
  lemma {:induction false} SubstituteAllAppend(url: string, a: seq<(string, Scalar)>, b: seq<(string, Scalar)>)
    ensures SubstituteAll(url, a + b) == SubstituteAll(SubstituteAll(url, a), b)
    decreases |a|
  {
    if a == [] {
      assert a + b == b;
    } else {
      assert (a + b)[1..] == a[1..] + b;
      SubstituteAllAppend(Substitute(url, a[0].0, a[0].1), a[1..], b);
    }
  }

  /** A null or undefined parameter, wherever it stands, changes nothing. */
  lemma NullishParamSkipped(url: string, a: seq<(string, Scalar)>, key: string, v: Scalar, b: seq<(string, Scalar)>)
    requires IsNullish(v)
    ensures SubstituteAll(url, a + [(key, v)] + b) == SubstituteAll(url, a + b)
  {
    SubstituteAllAppend(url, a + [(key, v)], b);
    SubstituteAllAppend(url, a, [(key, v)]);
    SubstituteAllAppend(url, a, b);
  }

  /**
   * A defined parameter replaces the first ":key" only: what precedes it and
   * what follows it (later ":key" tokens included) is kept as it was.
   */
  lemma SubstituteFirstOnly(before: string, key: string, after: string, v: Scalar)
    requires !IsNullish(v)
    requires forall j :: 0 <= j < |before| ==> !OccursAt(before + ":" + key + after, ":" + key, j)
    ensures Substitute(before + ":" + key + after, key, v)
              == before + EncodeURIComponent(ScalarText(v)) + after
  {
    var s := before + ":" + key + after;
    var p := ":" + key;
    assert s[|before|..|before| + |p|] == p;
    assert OccursAt(s, p, |before|);
    var i := IndexOf(s, p).value;
    assert i == |before|;
    assert s[..i] == before;
    assert s[i + |p|..] == after;
  }

  /** The same, when the text before the token has no ':' at all. */
  lemma SubstituteAfterColonFree(before: string, key: string, after: string, v: Scalar)
    requires !IsNullish(v)
    requires ':' !in before
    ensures Substitute(before + ":" + key + after, key, v)
              == before + EncodeURIComponent(ScalarText(v)) + after
  {
    var s := before + ":" + key + after;
    forall j | 0 <= j < |before| ensures !OccursAt(s, ":" + key, j) {
      assert s[j] == before[j];
    }
    SubstituteFirstOnly(before, key, after, v);
  }

  /** The text after a ':' made of letters and '_': the second half of /:[a-zA-Z_]+/. */
  predicate IsTokenChar(c: char) { IsAsciiUpper(c) || IsAsciiLower(c) || c == '_' }

  function TokenPrefix(s: string): (t: string)
    ensures |t| <= |s| && t == s[..|t|]
    ensures forall i :: 0 <= i < |t| ==> IsTokenChar(t[i])
  {
    if s != [] && IsTokenChar(s[0]) then
      var rest := TokenPrefix(s[1..]);
      assert [s[0]] + rest == s[..|rest| + 1];
      [s[0]] + rest
    else []
  }

  predicate TokenStartsAt(s: string, i: int) {
    0 <= i && i + 1 < |s| && s[i] == ':' && IsTokenChar(s[i + 1])
  }

  /** The matches of /:[a-zA-Z_]+/g, which the builder only warns about. */
  function UnreplacedTokens(s: string): seq<string>
    decreases |s|
  {
    if s == [] then []
    else if TokenStartsAt(s, 0) then
      var t := TokenPrefix(s[1..]);
      [":" + t] + UnreplacedTokens(s[1 + |t|..])
    else UnreplacedTokens(s[1..])
  }

  /** The warning is raised exactly when some ':' is followed by a letter or '_'. */
  lemma {:induction false} NoWarningIff(s: string)
    ensures UnreplacedTokens(s) == [] <==> forall i :: !TokenStartsAt(s, i)
    decreases |s|
  {
    if s != [] && !TokenStartsAt(s, 0) {
      NoWarningIff(s[1..]);
      forall i | TokenStartsAt(s, i) ensures TokenStartsAt(s[1..], i - 1) { }
      forall i | TokenStartsAt(s[1..], i) ensures TokenStartsAt(s, i + 1) { }
    }
  }

  /**
   * The pattern ":key" also matches the start of a longer token: ":id" is
   * replaced inside ":idx", leaving the "x" behind.
   */
  lemma KeyMatchesLongerToken(before: string, key: string, tail: string, after: string, v: Scalar)
    requires !IsNullish(v) && ':' !in before
    ensures Substitute(before + ":" + key + tail + after, key, v)
            == before + EncodeURIComponent(ScalarText(v)) + tail + after
  {
    assert before + ":" + key + tail + after == before + ":" + key + (tail + after);
    SubstituteAfterColonFree(before, key, tail + after, v);
  }

  /** A key used twice in the template: the second token is left for the warning. */
  lemma RepeatedKeyKeepsSecond(before: string, key: string, middle: string, v: Scalar)
    requires !IsNullish(v) && ':' !in before
    requires key != [] && forall i :: 0 <= i < |key| ==> IsTokenChar(key[i])
    ensures Substitute(before + ":" + key + middle + ":" + key, key, v)
            == before + EncodeURIComponent(ScalarText(v)) + middle + ":" + key
    ensures UnreplacedTokens(Substitute(before + ":" + key + middle + ":" + key, key, v)) != []
  {
    var e := EncodeURIComponent(ScalarText(v));
    FirstOfTwoTokens(before, key, middle, key, v);
    TokenAtEnd(before + e + middle, key);
  }

  /** Text ending in a token has a token to warn about. */
  lemma TokenAtEnd(pre: string, key: string)
    requires key != [] && IsTokenChar(key[0])
    ensures UnreplacedTokens(pre + ":" + key) != []
  {
    var r := pre + ":" + key;
    assert r[|pre|] == ':' && r[|pre| + 1] == key[0];
    assert TokenStartsAt(r, |pre|);
    NoWarningIff(r);
  }

  /** Text without ':' contributes no token to the warning. */
  lemma {:induction false} ColonFreeNoTokens(before: string, s: string)
    requires ':' !in before
    ensures UnreplacedTokens(before + s) == UnreplacedTokens(s)
  {
    if before != [] {
      assert (before + s)[0] == before[0];
      assert before[0] != ':';
      assert (before + s)[1..] == before[1..] + s;
      assert !TokenStartsAt(before + s, 0);
      assert UnreplacedTokens(before + s) == UnreplacedTokens(before[1..] + s);
      ColonFreeNoTokens(before[1..], s);
    } else {
      assert before + s == s;
    }
  }

  lemma {:induction false} TokenPrefixWhole(key: string)
    requires forall i :: 0 <= i < |key| ==> IsTokenChar(key[i])
    ensures TokenPrefix(key) == key
  {
    if key != [] {
      TokenPrefixWhole(key[1..]);
    }
  }

  /**
   * A parameter that is null or undefined leaves its token in the path; the
   * warning then names exactly that token.
   */
  lemma MissingParamWarns(before: string, key: string)
    requires ':' !in before
    requires key != [] && forall i :: 0 <= i < |key| ==> IsTokenChar(key[i])
    ensures SubstituteAll(before + ":" + key, [(key, Null)]) == before + ":" + key
    ensures UnreplacedTokens(SubstituteAll(before + ":" + key, [(key, Null)])) == [":" + key]
  {
    var params := [(key, Null)];
    assert params[1..] == [];
    assert SubstituteAll(before + ":" + key, params) == before + ":" + key;
    assert before + ":" + key == before + (":" + key);
    ColonFreeNoTokens(before, ":" + key);
    LoneToken(key);
  }

  lemma LoneToken(key: string)
    requires key != [] && forall i :: 0 <= i < |key| ==> IsTokenChar(key[i])
    ensures UnreplacedTokens(":" + key) == [":" + key]
  {
    var s := ":" + key;
    assert s[1..] == key;
    assert TokenStartsAt(s, 0);
    TokenPrefixWhole(key);
    assert s[1 + |key|..] == [];
    assert UnreplacedTokens(s) == [":" + key] + UnreplacedTokens([]);
  }

  // ---------------------------------------------------------------------------
  // Query string
  // ---------------------------------------------------------------------------

  /** `key=value`, both encoded. */
  function Pair(key: string, v: Scalar): string
  {
    EncodeURIComponent(key) + "=" + EncodeURIComponent(ScalarText(v))
  }

  /** An array value: one pair per element, in array order. */
  function PairsOf(key: string, items: seq<Scalar>): seq<string>
  {
    seq(|items|, j requires 0 <= j < |items| => Pair(key, items[j]))
  }

  /** What one kept entry contributes; an array's pairs are joined by '&'. */
  function Segment(key: string, value: QueryValue): string
  {
    match value
    case One(v) => Pair(key, v)
    case Many(items) => Join(PairsOf(key, items), "&")
  }

  /** Only a null or undefined value is filtered out; an array never is. */
  predicate Dropped(value: QueryValue) { value.One? && IsNullish(value.v) }

  /** The entries that survive the null/undefined filter, mapped to their segments. */
  function Segments(query: seq<(string, QueryValue)>): seq<string>
  {
    if query == [] then []
    else if Dropped(query[0].1) then Segments(query[1..])
    else [Segment(query[0].0, query[0].1)] + Segments(query[1..])
  }

  /** buildQueryString. */
  function QueryString(query: seq<(string, QueryValue)>): string
  {
    Join(Segments(query), "&")
  }

  // A reference reading of the query string: the list of (key, value) pairs
  // it carries, arrays expanded in place, and their texts.

  function Expand(key: string, value: QueryValue): seq<(string, Scalar)>
  {
    match value
    case One(v) => if IsNullish(v) then [] else [(key, v)]
    case Many(items) => seq(|items|, j requires 0 <= j < |items| => (key, items[j]))
  }

  function FlatEntries(query: seq<(string, QueryValue)>): seq<(string, Scalar)>
  {
    if query == [] then [] else Expand(query[0].0, query[0].1) + FlatEntries(query[1..])
  }

  function PairTexts(entries: seq<(string, Scalar)>): seq<string>
  {
    seq(|entries|, i requires 0 <= i < |entries| => Pair(entries[i].0, entries[i].1))
  }

  /** No entry holds an empty array (which would contribute an empty segment). */
  predicate NoEmptyArray(query: seq<(string, QueryValue)>)
  {
    forall i :: 0 <= i < |query| ==> query[i].1 != Many([])
  }

  lemma PairTextsAppend(a: seq<(string, Scalar)>, b: seq<(string, Scalar)>)
    ensures PairTexts(a + b) == PairTexts(a) + PairTexts(b)
  {
    assert |PairTexts(a + b)| == |PairTexts(a) + PairTexts(b)|;
    forall i | 0 <= i < |a + b| ensures PairTexts(a + b)[i] == (PairTexts(a) + PairTexts(b))[i] {
      if i < |a| {
        assert (a + b)[i] == a[i];
      } else {
        assert (a + b)[i] == b[i - |a|];
      }
    }
  }

  /** A kept entry's segment is the join of its expanded pairs, of which there is at least one. */
  lemma SegmentExpand(key: string, value: QueryValue)
    requires !Dropped(value) && value != Many([])
    ensures |Expand(key, value)| >= 1
    ensures Segment(key, value) == Join(PairTexts(Expand(key, value)), "&")
  {
    match value
    case One(v) =>
      assert PairTexts(Expand(key, value)) == [Pair(key, v)];
    case Many(items) =>
      assert PairTexts(Expand(key, value)) == PairsOf(key, items);
  }

  /**
   * Without empty arrays, the query string is the kept pairs, arrays
   * expanded in array order, joined by '&' in entry order; and it has no
   * segment exactly when every entry was filtered out.
   */
  lemma {:induction false} QueryStringFlat(query: seq<(string, QueryValue)>)
    requires NoEmptyArray(query)
    ensures Segments(query) == [] <==> FlatEntries(query) == []
    ensures QueryString(query) == Join(PairTexts(FlatEntries(query)), "&")
  {
    if query != [] {
      var (key, value) := query[0];
      var rest := query[1..];
      assert NoEmptyArray(rest) by {
        forall i | 0 <= i < |rest| ensures rest[i].1 != Many([]) {
          assert rest[i] == query[i + 1];
        }
      }
      QueryStringFlat(rest);
      assert value != Many([]) by { assert query[0].1 != Many([]); }
      var e := Expand(key, value);
      PairTextsAppend(e, FlatEntries(rest));
      if Dropped(value) {
        assert e == [];
        assert FlatEntries(query) == FlatEntries(rest);
      } else {
        SegmentExpand(key, value);
        var seg := Segment(key, value);
        assert Segments(query) == [seg] + Segments(rest);
        if FlatEntries(rest) == [] {
          assert FlatEntries(query) == e;
          assert Join([seg], "&") == seg;
        } else {
          JoinAppend(PairTexts(e), PairTexts(FlatEntries(rest)), "&");
          assert ([seg] + Segments(rest))[1..] == Segments(rest);
        }
      }
    }
  }

  /** Every entry null or undefined: the query string is empty. */
  lemma {:induction false} AllDroppedEmpty(query: seq<(string, QueryValue)>)
    requires forall i :: 0 <= i < |query| ==> Dropped(query[i].1)
    ensures QueryString(query) == ""
  {
    if query != [] {
      assert Dropped(query[0].1);
      AllDroppedEmpty(query[1..]);
    }
  }

  /** Without empty arrays, the query string is empty exactly when every entry is null or undefined. */
  lemma EmptyQueryIff(query: seq<(string, QueryValue)>)
    requires NoEmptyArray(query)
    ensures QueryString(query) == "" <==> forall i :: 0 <= i < |query| ==> Dropped(query[i].1)
  {
    if forall i :: 0 <= i < |query| ==> Dropped(query[i].1) {
      AllDroppedEmpty(query);
    } else {
      var i :| 0 <= i < |query| && !Dropped(query[i].1);
      KeptEntryExpands(query, i);
      QueryStringFlat(query);
      var texts := PairTexts(FlatEntries(query));
      JoinStartsWithFirst(texts, "&");
      assert |texts[0]| >= 1;
    }
  }

  lemma {:induction false} KeptEntryExpands(query: seq<(string, QueryValue)>, i: nat)
    requires NoEmptyArray(query)
    requires i < |query| && !Dropped(query[i].1)
    ensures FlatEntries(query) != []
  {
    assert query[i].1 != Many([]);
    if i == 0 {
      SegmentExpand(query[0].0, query[0].1);
    } else {
      assert query[1..][i - 1] == query[i];
      assert NoEmptyArray(query[1..]) by {
        forall j | 0 <= j < |query[1..]| ensures query[1..][j].1 != Many([]) {
          assert query[1..][j] == query[j + 1];
        }
      }
      KeptEntryExpands(query[1..], i - 1);
    }
  }

  /** One pair splits on '=' into the encoded key and value, which decode to their UTF-8 octets. */
  lemma PairRoundTrip(key: string, v: Scalar)
    ensures var parts := Split(Pair(key, v), '=');
            |parts| == 2
            && PercentDecode(parts[0]) == Utf8String(key)
            && PercentDecode(parts[1]) == Utf8String(ScalarText(v))
  {
    var k := EncodeURIComponent(key);
    var x := EncodeURIComponent(ScalarText(v));
    EncodedHasNoDelimiters(key);
    EncodedHasNoDelimiters(ScalarText(v));
    assert Join([k, x], "=") == Pair(key, v);
    SplitJoin([k, x], '=');
    DecodeEncode(key);
    DecodeEncode(ScalarText(v));
  }

  /**
   * Splitting a query string (without empty arrays, with at least one
   * pair) on '&' gives back exactly the kept pairs, in order.
   */
  lemma QueryRoundTrip(query: seq<(string, QueryValue)>)
    requires NoEmptyArray(query) && FlatEntries(query) != []
    ensures Split(QueryString(query), '&') == PairTexts(FlatEntries(query))
  {
    QueryStringFlat(query);
    var texts := PairTexts(FlatEntries(query));
    forall i | 0 <= i < |texts| ensures '&' !in texts[i] {
      var e := FlatEntries(query)[i];
      EncodedHasNoDelimiters(e.0);
      EncodedHasNoDelimiters(ScalarText(e.1));
    }
    SplitJoin(texts, '&');
  }

  /** An empty array adds an empty segment: the next pair is preceded by a lone '&'. */
  lemma EmptyArraySegment(k1: string, k2: string, v: Scalar)
    requires !IsNullish(v)
    ensures QueryString([(k1, Many([])), (k2, One(v))]) == "&" + Pair(k2, v)
  {
    var query := [(k1, Many([])), (k2, One(v))];
    assert PairsOf(k1, []) == [];
    assert Segment(k1, Many([])) == "";
    assert query[1..][1..] == [];
    assert Segments(query[1..]) == [Pair(k2, v)];
    assert Segments(query) == ["", Pair(k2, v)];
    assert ["", Pair(k2, v)][1..] == [Pair(k2, v)];
    assert Join(["", Pair(k2, v)], "&") == "" + "&" + Pair(k2, v);
    assert "" + "&" + Pair(k2, v) == "&" + Pair(k2, v);
  }

  /** buildURL, as a function of its inputs. */
  function Url(endpoint: string, params: seq<(string, Scalar)>, query: seq<(string, QueryValue)>,
               registry: Registry, baseURL: string): string
  {
    var path := SubstituteAll(Template(registry, endpoint), params);
    var qs := QueryString(query);
    baseURL + (if qs == "" then path else path + "?" + qs)
  }

  /** A name found in the registry (with a non-empty template) builds the URL of its template. */
  lemma RegistryLookup(endpoint: string, params: seq<(string, Scalar)>, query: seq<(string, QueryValue)>,
                       registry: Registry, baseURL: string)
    requires endpoint in registry && registry[endpoint] != ""
    ensures Url(endpoint, params, query, registry, baseURL) == Url(registry[endpoint], params, query, map[], baseURL)
  {
    assert Template(map[], registry[endpoint]) == registry[endpoint];
  }

  /** A name the registry lacks, or maps to "", is used as the template itself. */
  lemma RegistryMiss(endpoint: string, params: seq<(string, Scalar)>, query: seq<(string, QueryValue)>,
                     registry: Registry, baseURL: string)
    requires endpoint !in registry || registry[endpoint] == ""
    ensures Url(endpoint, params, query, registry, baseURL) == Url(endpoint, params, query, map[], baseURL)
  {
  }

  /** With every query value null or undefined, no '?' is added: the URL is the base and the path. */
  lemma NoQueryNoQuestionMark(endpoint: string, params: seq<(string, Scalar)>, query: seq<(string, QueryValue)>,
                              registry: Registry, baseURL: string)
    requires forall i :: 0 <= i < |query| ==> Dropped(query[i].1)
    ensures Url(endpoint, params, query, registry, baseURL)
            == baseURL + SubstituteAll(Template(registry, endpoint), params)
  {
    AllDroppedEmpty(query);
  }

  /** Otherwise (without empty arrays) the query string follows a single '?'. */
  lemma QueryAfterQuestionMark(endpoint: string, params: seq<(string, Scalar)>, query: seq<(string, QueryValue)>,
                               registry: Registry, baseURL: string)
    requires NoEmptyArray(query)
    requires exists i :: 0 <= i < |query| && !Dropped(query[i].1)
    ensures Url(endpoint, params, query, registry, baseURL)
            == baseURL + SubstituteAll(Template(registry, endpoint), params) + "?" + QueryString(query)
  {
    EmptyQueryIff(query);
  }

  /**
   * buildURL: the substitution loop over the parameters, then the query
   * string. The tokens still in the path are returned as the warning the
   * source logs; they never stop the URL from being returned.
   */
  method BuildURL(endpoint: string, params: seq<(string, Scalar)>, query: seq<(string, QueryValue)>,
                  registry: Registry, baseURL: string)
    returns (url: string, unreplaced: seq<string>)
    ensures url == Url(endpoint, params, query, registry, baseURL)
    ensures unreplaced == UnreplacedTokens(SubstituteAll(Template(registry, endpoint), params))
  {
    var path := Template(registry, endpoint);
    var i := 0;
    while i < |params|
      invariant 0 <= i <= |params|
      invariant SubstituteAll(path, params[i..]) == SubstituteAll(Template(registry, endpoint), params)
    {
      var key, value := params[i].0, params[i].1;
      ghost var previous := path;
      if !IsNullish(value) {
        path := ReplaceFirst(path, ":" + key, EncodeURIComponent(ScalarText(value)));
      }
      assert path == Substitute(previous, key, value);
      assert params[i..][0] == (key, value) && params[i..][1..] == params[i + 1..];
      i := i + 1;
    }
    assert params[i..] == [];
    assert path == SubstituteAll(Template(registry, endpoint), params);
    unreplaced := UnreplacedTokens(path);
    var qs := QueryString(query);
    if qs != "" {
      path := path + "?" + qs;
    }
    url := baseURL + path;
  }

  /** 123 is written in decimal, and its digits need no escaping. */
  lemma Text123()
    ensures EncodeURIComponent(ScalarText(Num(123))) == "123"
  {
    assert NatToString(1) == "1";
    assert NatToString(12) == "12";
    EncodeUnescaped("123");
  }

  /** 456 is written in decimal, and its digits need no escaping. */
  lemma Text456()
    ensures EncodeURIComponent(ScalarText(Num(456))) == "456"
  {
    assert NatToString(4) == "4";
    assert NatToString(45) == "45";
    EncodeUnescaped("456");
  }

  /**
   * A template with two tokens, each preceded by text without ':', takes
   * the encoded values in place of both tokens.
   */
  lemma TwoTokens(b: string, k1: string, m: string, k2: string, v1: Scalar, v2: Scalar)
    requires ':' !in b && ':' !in m
    requires !IsNullish(v1) && !IsNullish(v2)
    ensures SubstituteAll(b + ":" + k1 + m + ":" + k2, [(k1, v1), (k2, v2)])
            == b + EncodeURIComponent(ScalarText(v1)) + m + EncodeURIComponent(ScalarText(v2))
  {
    var params := [(k1, v1), (k2, v2)];
    var s1 := b + EncodeURIComponent(ScalarText(v1)) + m + ":" + k2;
    var s2 := b + EncodeURIComponent(ScalarText(v1)) + m + EncodeURIComponent(ScalarText(v2));
    FirstOfTwoTokens(b, k1, m, k2, v1);
    SecondOfTwoTokens(b, m, k2, v1, v2);
    assert params[1..] == [(k2, v2)] && params[1..][1..] == [];
    assert SubstituteAll(s1, params[1..]) == SubstituteAll(s2, []);
  }

  /** The first of two tokens is replaced; the text after it, the second token included, is kept. */
  lemma FirstOfTwoTokens(b: string, k1: string, m: string, k2: string, v1: Scalar)
    requires ':' !in b && !IsNullish(v1)
    ensures Substitute(b + ":" + k1 + m + ":" + k2, k1, v1) == b + EncodeURIComponent(ScalarText(v1)) + m + ":" + k2
  {
    var e1 := EncodeURIComponent(ScalarText(v1));
    assert b + ":" + k1 + m + ":" + k2 == b + ":" + k1 + (m + ":" + k2);
    SubstituteAfterColonFree(b, k1, m + ":" + k2, v1);
    assert b + e1 + (m + ":" + k2) == b + e1 + m + ":" + k2;
  }

  /** Once the first token is replaced, the second is the first ':' in the text. */
  lemma SecondOfTwoTokens(b: string, m: string, k2: string, v1: Scalar, v2: Scalar)
    requires ':' !in b && ':' !in m && !IsNullish(v2)
    ensures var pre := b + EncodeURIComponent(ScalarText(v1)) + m;
            Substitute(pre + ":" + k2, k2, v2) == pre + EncodeURIComponent(ScalarText(v2))
  {
    var pre := b + EncodeURIComponent(ScalarText(v1)) + m;
    EncodedHasNoDelimiters(ScalarText(v1));
    ColonFreeConcat(b, EncodeURIComponent(ScalarText(v1)), m);
    SubstituteAfterColonFree(pre, k2, "", v2);
    assert pre + ":" + k2 + "" == pre + ":" + k2;
    assert pre + EncodeURIComponent(ScalarText(v2)) + "" == pre + EncodeURIComponent(ScalarText(v2));
  }

  lemma ColonFreeConcat(a: string, b: string, c: string)
    requires ':' !in a && ':' !in b && ':' !in c
    ensures ':' !in a + b + c
  {
  }

  /** The URL is the base, the substituted path, and '?' with the query string when there is one. */
  lemma UrlParts(endpoint: string, params: seq<(string, Scalar)>, query: seq<(string, QueryValue)>,
                 baseURL: string, path: string, qs: string)
    requires SubstituteAll(endpoint, params) == path
    requires QueryString(query) == qs && qs != ""
    ensures Url(endpoint, params, query, map[], baseURL) == baseURL + path + "?" + qs
  {
    assert Template(map[], endpoint) == endpoint;
  }

  /** A single pair of unreserved text is written as it is. */
  lemma SinglePair(key: string, value: string)
    requires EncodeURIComponent(key) == key && EncodeURIComponent(value) == value
    ensures QueryString([(key, One(Str(value)))]) == key + "=" + value
  {
    var query := [(key, One(Str(value)))];
    assert query[1..] == [];
    assert Segments(query) == [Pair(key, Str(value))];
  }

  lemma EncodeStatus()
    ensures EncodeURIComponent("status") == "status"
  {
    EncodeUnescaped("status");
  }

  lemma EncodeActive()
    ensures EncodeURIComponent("ACTIVE") == "ACTIVE"
  {
    EncodeUnescaped("ACTIVE");
  }

  lemma ExampleQuery(query: seq<(string, QueryValue)>)
    requires query == [("status", One(Str("ACTIVE")))]
    ensures QueryString(query) == "status" + "=" + "ACTIVE"
  {
    EncodeStatus();
    EncodeActive();
    SinglePair("status", "ACTIVE");
  }

  lemma ExamplePath(b: string, m: string, params: seq<(string, Scalar)>)
    requires ':' !in b && ':' !in m
    requires params == [("clientId", Num(123)), ("projectId", Num(456))]
    ensures SubstituteAll(b + ":clientId" + m + ":projectId", params) == b + "123" + m + "456"
  {
    Text123();
    Text456();
    assert b + ":clientId" + m + ":projectId" == b + ":" + "clientId" + m + ":" + "projectId";
    TwoTokens(b, "clientId", m, "projectId", Num(123), Num(456));
  }

  /**
   * The example in the builder's documentation, for any base URL and any
   * colon-free text around the tokens: "/client/:clientId/project/:projectId"
   * with clientId 123, projectId 456 and status ACTIVE gives
   * "/client/123/project/456?status=ACTIVE" after the base URL.
   */
  lemma DocumentedExample(baseURL: string, b: string, m: string, template: string,
                          params: seq<(string, Scalar)>, query: seq<(string, QueryValue)>)
    requires ':' !in b && ':' !in m
    requires template == b + ":clientId" + m + ":projectId"
    requires params == [("clientId", Num(123)), ("projectId", Num(456))]
    requires query == [("status", One(Str("ACTIVE")))]
    ensures Url(template, params, query, map[], baseURL) == baseURL + (b + "123" + m + "456") + "?" + ("status" + "=" + "ACTIVE")
  {
    var path := b + "123" + m + "456";
    ExamplePath(b, m, params);
    ExampleQuery(query);
    UrlParts(template, params, query, baseURL, path, "status" + "=" + "ACTIVE");
  }
}
