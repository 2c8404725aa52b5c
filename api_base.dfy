/** The HTTP client's pure helpers: the query-string serialiser with its
    percent-encoding (section 2.1 of RFC 3986, as `urllib.parse.quote` does
    it), the model converter, and the shaping and error wrapping of a fetched
    result. The request itself is a parameter. */
module ApiBase {
  import opened Common
  import opened PyValues
  import opened Errors

  type Byte = b: int | 0 <= b < 256

  /** The characters `quote` never escapes: RFC 3986 unreserved characters and '/'. */
  predicate Unreserved(c: char)
  {
    ('A' <= c <= 'Z') || ('a' <= c <= 'z') || ('0' <= c <= '9') || c == '_' || c == '.' || c == '-' || c == '~'
  }

  predicate QuoteSafe(c: char)
  {
    Unreserved(c) || c == '/'
  }

  /** The UTF-8 encoding of one character. */
  function Utf8(c: char): (r: seq<Byte>)
    ensures 1 <= |r| <= 4
    ensures c as int < 0x80 ==> r == [c as int]
  {
    var cp := c as int;
    if cp < 0x80 then [cp]
    else if cp < 0x800 then [0xC0 + cp / 64, 0x80 + cp % 64]
    else if cp < 0x10000 then [0xE0 + cp / 4096, 0x80 + (cp / 64) % 64, 0x80 + cp % 64]
    else [0xF0 + cp / 262144, 0x80 + (cp / 4096) % 64, 0x80 + (cp / 64) % 64, 0x80 + cp % 64]
  }

  function Utf8Encode(s: string): seq<Byte>
  {
    if s == [] then [] else Utf8(s[0]) + Utf8Encode(s[1..])
  }

  /** Upper-case hexadecimal digit, as `quote` writes them. */
  function HexDigit(d: int): (c: char)
    requires 0 <= d < 16
    ensures Unreserved(c) && IsHex(c) && HexValue(c) == d
  {
    if d < 10 then ('0' as int + d) as char else ('A' as int + d - 10) as char
  }

  predicate IsHex(c: char)
  {
    ('0' <= c <= '9') || ('a' <= c <= 'f') || ('A' <= c <= 'F')
  }

  function HexValue(c: char): (d: int)
    requires IsHex(c)
    ensures 0 <= d < 16
  {
    if '0' <= c <= '9' then c as int - '0' as int
    else if 'a' <= c <= 'f' then c as int - 'a' as int + 10
    else c as int - 'A' as int + 10
  }

  /** `%XX` for each byte. */
  function Percents(bytes: seq<Byte>): (r: string)
    ensures |r| == 3 * |bytes|
    ensures forall i :: 0 <= i < |r| ==> r[i] == '%' || Unreserved(r[i])
  {
    if bytes == [] then []
    else ['%', HexDigit(bytes[0] / 16), HexDigit(bytes[0] % 16)] + Percents(bytes[1..])
  }

  function QuoteChar(c: char): (r: string)
    ensures forall i :: 0 <= i < |r| ==> r[i] == '%' || QuoteSafe(r[i])
  {
    if QuoteSafe(c) then [c] else Percents(Utf8(c))
  }

  /** `urllib.parse.quote(s)`: safe characters stay, every other character
      becomes the `%XX` escapes of its UTF-8 bytes. The output is made of safe
      characters and '%' only, and a string of safe characters is unchanged. */
  function Quote(s: string): (r: string)
    ensures forall i :: 0 <= i < |r| ==> r[i] == '%' || QuoteSafe(r[i])
    ensures (forall i :: 0 <= i < |s| ==> QuoteSafe(s[i])) ==> r == s
  {
    if s == [] then []
    else
      var rest := Quote(s[1..]);
      var r := QuoteChar(s[0]) + rest;
      assert forall i :: |QuoteChar(s[0])| <= i < |r| ==> r[i] == rest[i - |QuoteChar(s[0])|];
      if forall i :: 0 <= i < |s| ==> QuoteSafe(s[i]) then
        assert QuoteSafe(s[0]);
        assert forall i :: 0 <= i < |s[1..]| ==> QuoteSafe(s[1..][i]) by {
          forall i | 0 <= i < |s[1..]| ensures QuoteSafe(s[1..][i]) { assert s[1..][i] == s[i + 1]; }
        }
        assert [s[0]] + s[1..] == s;
        r
      else r
  }

  /** `urllib.parse.unquote_to_bytes`: `%XX` with two hex digits is one byte,
      any other character contributes its UTF-8 bytes. */
  function PercentDecode(t: string): seq<Byte>
  {
    if t == [] then []
    else if t[0] == '%' && |t| >= 3 && IsHex(t[1]) && IsHex(t[2]) then
      [HexValue(t[1]) * 16 + HexValue(t[2])] + PercentDecode(t[3..])
    else Utf8(t[0]) + PercentDecode(t[1..])
  }

  lemma DecodeOnePercent(b: Byte, rest: string)
    ensures PercentDecode(['%', HexDigit(b / 16), HexDigit(b % 16)] + rest) == [b] + PercentDecode(rest)
  {
    var u := ['%', HexDigit(b / 16), HexDigit(b % 16)] + rest;
    assert u[3..] == rest;
  }

  lemma {:induction false} DecodePercents(bytes: seq<Byte>, t: string)
    ensures PercentDecode(Percents(bytes) + t) == bytes + PercentDecode(t)
  {
    if bytes != [] {
      var b := bytes[0];
      assert Percents(bytes) + t == ['%', HexDigit(b / 16), HexDigit(b % 16)] + (Percents(bytes[1..]) + t);
      DecodeOnePercent(b, Percents(bytes[1..]) + t);
      DecodePercents(bytes[1..], t);
      assert [b] + (bytes[1..] + PercentDecode(t)) == bytes + PercentDecode(t);
    } else {
      assert Percents(bytes) + t == t;
    }
  }

  lemma DecodeQuoteChar(c: char, t: string)
    ensures PercentDecode(QuoteChar(c) + t) == Utf8(c) + PercentDecode(t)
  {
    if QuoteSafe(c) {
      assert ([c] + t)[1..] == t;
    } else {
      DecodePercents(Utf8(c), t);
    }
  }

  /** Decoding a quoted string gives back the UTF-8 bytes of the original. */
  lemma {:induction false} DecodeQuote(s: string)
    ensures PercentDecode(Quote(s)) == Utf8Encode(s)
  {
    if s != [] {
      DecodeQuoteChar(s[0], Quote(s[1..]));
      DecodeQuote(s[1..]);
    }
  }

  /** A field value of the filter model: `str` of a scalar, or the `str` of each element of a list. */
  datatype Param = Scalar(text: string) | Listed(items: seq<string>)

  /** Lists are joined with commas before encoding. */
  function ParamText(p: Param): string
  {
    match p
    case Scalar(text) => text
    case Listed(items) => Join(items, ',')
  }

  function PairText(key: string, p: Param): string
  {
    Join([Quote(key), Quote(ParamText(p))], '=')
  }

  function Pairs(fields: seq<(string, Param)>): (r: seq<string>)
    ensures |r| == |fields|
  {
    seq(|fields|, i requires 0 <= i < |fields| => PairText(fields[i].0, fields[i].1))
  }

  lemma QuoteHasNoSeparator(s: string, sep: char)
    requires sep == '=' || sep == '&'
    ensures sep !in Quote(s)
  {
  }

  /** Each pair splits on '=' into exactly its encoded key and value, and no
      pair contains '&'. */
  lemma PairSplits(key: string, p: Param)
    ensures Split(PairText(key, p), '=') == [Quote(key), Quote(ParamText(p))]
    ensures '&' !in PairText(key, p)
  {
    QuoteHasNoSeparator(key, '=');
    QuoteHasNoSeparator(ParamText(p), '=');
    SplitJoin([Quote(key), Quote(ParamText(p))], '=');
    QuoteHasNoSeparator(key, '&');
    QuoteHasNoSeparator(ParamText(p), '&');
    assert PairText(key, p) == Quote(key) + ['='] + Quote(ParamText(p));
  }

  /** `to_query_string`: one `key=value` pair per field, in field order,
      joined by '&'. Splitting the result on '&' and then on '=' recovers
      every encoded key and value, and decoding those gives back the UTF-8
      bytes of the key and of the value's text. */
  method ToQueryString(fields: seq<(string, Param)>) returns (qs: string)
    ensures qs == Join(Pairs(fields), '&')
    ensures fields == [] ==> qs == ""
    ensures fields != [] ==> |Split(qs, '&')| == |fields|
    ensures fields != [] ==> forall i :: 0 <= i < |fields| ==>
      Split(Split(qs, '&')[i], '=') == [Quote(fields[i].0), Quote(ParamText(fields[i].1))]
  {
    var queryParams: seq<string> := [];
    for i := 0 to |fields|
      invariant |queryParams| == i
      invariant forall j :: 0 <= j < i ==> queryParams[j] == PairText(fields[j].0, fields[j].1)
    {
      var field := fields[i];
      queryParams := queryParams + [PairText(field.0, field.1)];
    }
    assert queryParams == Pairs(fields);
    qs := Join(queryParams, '&');
    if fields != [] {
      QueryStringSplits(fields);
    }
  }

  lemma QueryStringSplits(fields: seq<(string, Param)>)
    requires fields != []
    ensures Split(Join(Pairs(fields), '&'), '&') == Pairs(fields)
    ensures forall i :: 0 <= i < |fields| ==>
      Split(Pairs(fields)[i], '=') == [Quote(fields[i].0), Quote(ParamText(fields[i].1))]
  {
    var pairs := Pairs(fields);
    forall i | 0 <= i < |fields|
      ensures Split(pairs[i], '=') == [Quote(fields[i].0), Quote(ParamText(fields[i].1))]
      ensures '&' !in pairs[i]
    {
      PairSplits(fields[i].0, fields[i].1);
    }
    SplitJoin(pairs, '&');
  }

  /** The decoded pair gives back the key and the value's text. */
  lemma PairDecodes(key: string, p: Param)
    ensures |Split(PairText(key, p), '=')| == 2 &&
      PercentDecode(Split(PairText(key, p), '=')[0]) == Utf8Encode(key) &&
      PercentDecode(Split(PairText(key, p), '=')[1]) == Utf8Encode(ParamText(p))
  {
    PairSplits(key, p);
    DecodeQuote(key);
    DecodeQuote(ParamText(p));
  }

  /** What `convert_list` has produced after the given items, in loop order
      (`build` is `ModelConverter.convert`, i.e. `base_type(**item)`, whose
      failure is logged and re-raised unchanged):
      a failing conversion is skipped when it raised an `Exception`; anything
      else still propagates. */
  function Converted<T>(build: Value -> Result<T, Raised>, items: seq<Value>): Result<seq<T>, Raised>
  {
    if items == [] then Ok([])
    else
      var before := Converted(build, items[..|items| - 1]);
      if before.Err? then before
      else
        var last := build(items[|items| - 1]);
        if last.Ok? then Ok(before.value + [last.value])
        else if IsException(last.error) then before
        else Err(last.error)
  }

  /** Once an error escapes, later items do not change the outcome. */
  lemma {:induction false} ConvertedKeepsError<T>(build: Value -> Result<T, Raised>, items: seq<Value>, k: nat)
    requires k <= |items| && Converted(build, items[..k]).Err?
    ensures Converted(build, items) == Converted(build, items[..k])
    decreases |items| - k
  {
    if k < |items| {
      assert items[..k + 1][..k] == items[..k];
      ConvertedKeepsError(build, items, k + 1);
    } else {
      assert items[..k] == items;
    }
  }

  /** `convert_list`. */
  method ConvertList<T>(build: Value -> Result<T, Raised>, items: seq<Value>) returns (r: Result<seq<T>, Raised>)
    ensures r == Converted(build, items)
  {
    var results: seq<T> := [];
    for i := 0 to |items|
      invariant Converted(build, items[..i]) == Ok(results)
    {
      var converted := build(items[i]);
      assert items[..i + 1][..i] == items[..i];
      if converted.Ok? {
        results := results + [converted.value];
      } else if !IsException(converted.error) {
        ConvertedKeepsError(build, items, i + 1);
        return Err(converted.error);
      }
    }
    assert items[..|items|] == items;
    r := Ok(results);
  }

  predicate Converts<T>(build: Value -> Result<T, Raised>, item: Value)
  {
    build(item).Ok?
  }

  predicate Escapes<T>(build: Value -> Result<T, Raised>, item: Value)
  {
    build(item).Err? && !IsException(build(item).error)
  }

  /** The converted values of the items that convert, in input order. */
  function Successes<T>(build: Value -> Result<T, Raised>, items: seq<Value>): (r: seq<T>)
    ensures |r| <= |items|
  {
    if items == [] then []
    else (if build(items[0]).Ok? then [build(items[0]).value] else []) + Successes(build, items[1..])
  }

  lemma {:induction false} SuccessesAppend<T>(build: Value -> Result<T, Raised>, items: seq<Value>, x: Value)
    ensures Successes(build, items + [x]) == Successes(build, items) + (if build(x).Ok? then [build(x).value] else [])
  {
    if items != [] {
      assert (items + [x])[1..] == items[1..] + [x];
      SuccessesAppend(build, items[1..], x);
    } else {
      assert [x][1..] == [];
    }
  }

  /** `convert_list` returns the converted items in input order, skipping the
      ones whose conversion raised an `Exception`; it fails only when some item
      raised something outside `Exception`, and then with the first such error. */
  lemma {:induction false} ConvertedSkipsFailures<T>(build: Value -> Result<T, Raised>, items: seq<Value>)
    ensures Converted(build, items).Ok? <==> forall i :: 0 <= i < |items| ==> !Escapes(build, items[i])
    ensures Converted(build, items).Ok? ==> Converted(build, items).value == Successes(build, items)
    ensures Converted(build, items).Err? ==>
      (exists i :: 0 <= i < |items| && Escapes(build, items[i]) &&
        Converted(build, items).error == build(items[i]).error &&
        (forall j :: 0 <= j < i ==> !Escapes(build, items[j])))
  {
    if items != [] {
      var init := items[..|items| - 1];
      var x := items[|items| - 1];
      ConvertedSkipsFailures(build, init);
      assert init + [x] == items;
      SuccessesAppend(build, init, x);
      assert forall i :: 0 <= i < |init| ==> init[i] == items[i];
    }
  }

  /** `result[path]` on a parsed JSON result. */
  function Select(result: Value, path: string): Result<Value, Raised>
  {
    if result.VDict? then
      if VStr(path) in result.entries then Ok(result.entries[VStr(path)])
      else Err(PyException("KeyError", path))
    else Err(PyException("TypeError", "indices must be integers"))
  }

  /** `result[path] if path else result`. */
  function Data(result: Value, path: Option<string>): Result<Value, Raised>
  {
    if path.Some? && path.value != "" then Select(result, path.value) else Ok(result)
  }

  /** The `except` clauses: an ApiException is re-raised as it is, any other
      `Exception` becomes `ApiException(500, "Unknown server error")`, and an
      exception outside `Exception` is not caught. */
  function Rethrow(e: Raised): (r: Raised)
    ensures e.ApiException? ==> r == e
    ensures !e.ApiException? && IsException(e) ==> r == ApiException(500, "Unknown server error", None)
    ensures !IsException(e) ==> r == e
    ensures r.ApiException? || !IsException(r)
  {
    if e.ApiException? || !IsException(e) then e else ApiException(500, "Unknown server error", None)
  }

  function Wrap<T>(r: Result<T, Raised>): Result<T, Raised>
  {
    if r.Ok? then r else Err(Rethrow(r.error))
  }

  /** `_get_list` over the outcome of the request: list data becomes the
      `convert_list` result, any other data a one-element list. */
  function GetList<T>(fetched: Result<Value, Raised>, path: Option<string>, build: Value -> Result<T, Raised>): (r: Result<seq<T>, Raised>)
    ensures r.Err? ==> r.error.ApiException? || !IsException(r.error)
    ensures fetched.Err? ==> r == Err(Rethrow(fetched.error))
    ensures fetched.Ok? && Data(fetched.value, path).Err? ==> r == Err(Rethrow(Data(fetched.value, path).error))
    ensures fetched.Ok? && Data(fetched.value, path).Ok? ==>
      var data := Data(fetched.value, path).value;
      (data.VList? ==> r == Wrap(Converted(build, data.items))) &&
      (!data.VList? && build(data).Ok? ==> r == Ok([build(data).value])) &&
      (!data.VList? && build(data).Err? ==> r == Err(Rethrow(build(data).error)))
  {
    Wrap(
      var result :- fetched;
      var data :- Data(result, path);
      if data.VList? then Converted(build, data.items)
      else
        var item :- build(data);
        Ok([item]))
  }

  /** A converted single item, with the error wrapping of the `except` clauses. */
  function SomeOf<T>(converted: Result<T, Raised>): Result<Option<T>, Raised>
  {
    if converted.Ok? then Ok(Some(converted.value)) else Err(Rethrow(converted.error))
  }

  /** `_get_single`: a non-empty list converts its first element, other truthy
      data is converted, and falsy data gives None. */
  function GetSingle<T>(fetched: Result<Value, Raised>, path: Option<string>, build: Value -> Result<T, Raised>): (r: Result<Option<T>, Raised>)
    ensures r.Err? ==> r.error.ApiException? || !IsException(r.error)
    ensures fetched.Err? ==> r == Err(Rethrow(fetched.error))
    ensures fetched.Ok? && Data(fetched.value, path).Err? ==> r == Err(Rethrow(Data(fetched.value, path).error))
    ensures fetched.Ok? && Data(fetched.value, path).Ok? ==>
      var data := Data(fetched.value, path).value;
      (!Truthy(data) ==> r == Ok(None)) &&
      (Truthy(data) && data.VList? ==> r == SomeOf(build(data.items[0]))) &&
      (Truthy(data) && !data.VList? ==> r == SomeOf(build(data)))
  {
    Wrap(
      var result :- fetched;
      var data :- Data(result, path);
      if Truthy(data) && data.VList? then
        var item :- build(data.items[0]);
        Ok(Some(item))
      else if Truthy(data) then
        var item :- build(data);
        Ok(Some(item))
      else Ok(None))
  }

  /** `_post`: the whole response is converted. */
  function Post<T>(fetched: Result<Value, Raised>, build: Value -> Result<T, Raised>): (r: Result<T, Raised>)
    ensures r.Err? ==> r.error.ApiException? || !IsException(r.error)
    ensures fetched.Ok? && build(fetched.value).Ok? ==> r == Ok(build(fetched.value).value)
    ensures fetched.Ok? && build(fetched.value).Err? ==> r == Err(Rethrow(build(fetched.value).error))
    ensures fetched.Err? ==> r == Err(Rethrow(fetched.error))
  {
    Wrap(
      var result :- fetched;
      build(result))
  }

  /** A response without the requested path is a server error: indexing a
      number raises TypeError, a dict without the key raises KeyError, and
      both leave as `ApiException(500)`. */
  lemma BadPathIsServerError<T>(build: Value -> Result<T, Raised>)
    ensures GetList(Ok(VInt(3)), Some("data"), build) == Err(ApiException(500, "Unknown server error", None))
    ensures GetSingle(Ok(VDict(map[])), Some("data"), build) == Err(ApiException(500, "Unknown server error", None))
  {
  }
}
