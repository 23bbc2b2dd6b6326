/**
 * Reading a request: the request line, then header lines up to the first empty line, all
 * folded into one map from name to value. The request line's three fields are stored in the
 * same map under the keys "method", "resource" and "protocol", so a header line with one of
 * those names replaces them.
 */
module RequestParser {
  import opened Common
  import opened Text
  import opened Http

  type Headers = map<string, string>

  /** The unchecked exceptions reading the request line can raise. */
  datatype ParseError =
    | NoRequestLine           // readLine gave null: new StringTokenizer(null) fails
    | MissingToken(found: nat) // nextToken ran out after `found` tokens

  /** The map seeded from the request line: method upper-cased, resource lower-cased, protocol as sent. */
  function RequestLine(line: string): (r: Result<Headers, ParseError>)
    ensures r.Success? <==> |Tokens(line)| >= 3
    ensures r.Failure? ==> r.error == MissingToken(|Tokens(line)|)
    ensures r.Success? ==> r.value.Keys == {MethodKey, ResourceKey, ProtocolKey}
  {
    var ts := Tokens(line);
    if |ts| < 3 then Failure(MissingToken(|ts|))
    else Success(map[MethodKey := ToUpper(ts[0]), ResourceKey := ToLower(ts[1]), ProtocolKey := ts[2]])
  }

  /**
   * A request line of at least three words yields the first upper-cased, the second
   * lower-cased and the third verbatim; further words are ignored.
   */
  lemma RequestLineFields(verb: string, resource: string, protocol: string, extra: seq<string>)
    requires IsField(verb, TokenDelimiters) && IsField(resource, TokenDelimiters)
    requires IsField(protocol, TokenDelimiters)
    requires forall i :: 0 <= i < |extra| ==> IsField(extra[i], TokenDelimiters)
    ensures RequestLine(JoinWith([verb, resource, protocol] + extra, ' '))
            == Success(map[MethodKey := ToUpper(verb), ResourceKey := ToLower(resource),
                           ProtocolKey := protocol])
  {
    JoinedTokens(verb, resource, protocol, extra);
    RequestLineOfTokens(JoinWith([verb, resource, protocol] + extra, ' '), verb, resource, protocol, extra);
  }

  /** The request line's map is read off its first three tokens. */
  lemma RequestLineOfTokens(line: string, verb: string, resource: string, protocol: string, extra: seq<string>)
    requires Tokens(line) == [verb, resource, protocol] + extra
    ensures RequestLine(line)
            == Success(map[MethodKey := ToUpper(verb), ResourceKey := ToLower(resource), ProtocolKey := protocol])
  {
    var ts := [verb, resource, protocol] + extra;
    assert ts[0] == verb && ts[1] == resource && ts[2] == protocol;
  }

  lemma JoinedTokens(verb: string, resource: string, protocol: string, extra: seq<string>)
    requires IsField(verb, TokenDelimiters) && IsField(resource, TokenDelimiters)
    requires IsField(protocol, TokenDelimiters)
    requires forall i :: 0 <= i < |extra| ==> IsField(extra[i], TokenDelimiters)
    ensures Tokens(JoinWith([verb, resource, protocol] + extra, ' ')) == [verb, resource, protocol] + extra
  {
    AllFields(verb, resource, protocol, extra);
    FieldsOfJoin([verb, resource, protocol] + extra, ' ', TokenDelimiters);
  }

  lemma AllFields(verb: string, resource: string, protocol: string, extra: seq<string>)
    requires IsField(verb, TokenDelimiters) && IsField(resource, TokenDelimiters)
    requires IsField(protocol, TokenDelimiters)
    requires forall i :: 0 <= i < |extra| ==> IsField(extra[i], TokenDelimiters)
    ensures var ts := [verb, resource, protocol] + extra;
      forall i :: 0 <= i < |ts| ==> IsField(ts[i], TokenDelimiters)
  {
  }

  /** What a header line contributes to the map: a name and a value, or nothing. */
  type Entry = Option<(string, string)>

  /** The entry a header line contributes: only when its first ':' has at least one character before it. */
  function HeaderField(line: string): (r: Entry)
    ensures r.Some? <==> IndexOf(line, ':') > 0
  {
    var idx := IndexOf(line, ':');
    if idx > 0 then Some((ToLower(line[..idx]), Trim(line[idx + 1..]))) else None
  }

  /** A line `name:value` stores the lower-cased name with the trimmed value. */
  lemma HeaderFieldOfLine(name: string, value: string)
    requires name != [] && ':' !in name
    ensures HeaderField(name + ":" + value) == Some((ToLower(name), Trim(value)))
  {
    var line := name + ":" + value;
    assert line[..|name|] == name;
    assert line[|name|] == ':';
    assert IndexOf(line, ':') == |name|;
    assert line[|name| + 1..] == value;
  }

  /** The entries of a block of header lines, one per line. */
  function Entries(block: seq<string>): (r: seq<Entry>)
    ensures |r| == |block|
  {
    if block == [] then [] else Entries(block[..|block| - 1]) + [HeaderField(block[|block| - 1])]
  }

  /** Entry `i` is the one line `i` contributes. */
  lemma {:induction false} EntryAt(block: seq<string>, i: nat)
    requires i < |block|
    ensures Entries(block)[i] == HeaderField(block[i])
    decreases |block|
  {
    var n := |block| - 1;
    if i < n {
      EntryAt(block[..n], i);
    }
  }

  /** The entry stores a value under `name`. */
  predicate Names(e: Entry, name: string) {
    e.Some? && e.value.0 == name
  }

  /** The header line stores a value under `name`. */
  predicate Defines(line: string, name: string) {
    Names(HeaderField(line), name)
  }

  /** HashMap.put of one entry, when the line had a name. */
  function Put(m: Headers, e: Entry): Headers {
    if e.Some? then m[e.value.0 := e.value.1] else m
  }

  /** The map after putting the entries `es` in order, starting from `m`. */
  function Fold(m: Headers, es: seq<Entry>): (r: Headers)
    ensures forall i :: 0 <= i < |es| && es[i].Some? ==> es[i].value.0 in r
    decreases |es|
  {
    if es == [] then m else Put(Fold(m, es[..|es| - 1]), es[|es| - 1])
  }

  /** The index where header reading stops: the first empty line at or after `from`, or the end. */
  function BlockEnd(lines: seq<string>, from: nat): (e: nat)
    requires from <= |lines|
    ensures from <= e <= |lines|
    ensures forall k :: from <= k < e ==> |lines[k]| != 0
    ensures e < |lines| ==> |lines[e]| == 0
    decreases |lines| - from
  {
    if from == |lines| || |lines[from]| == 0 then from else BlockEnd(lines, from + 1)
  }

  lemma BlockEndUnique(lines: seq<string>, from: nat, e: nat)
    requires from <= e <= |lines|
    requires forall k :: from <= k < e ==> |lines[k]| != 0
    requires e < |lines| ==> |lines[e]| == 0
    ensures e == BlockEnd(lines, from)
  {
  }

  /** The header lines: after the request line, up to the first empty line. */
  function HeaderBlock(lines: seq<string>): (r: seq<string>)
    requires lines != []
    ensures |r| < |lines|
    ensures forall i :: 0 <= i < |r| ==> |r[i]| != 0
  {
    lines[1..BlockEnd(lines, 1)]
  }

  /** parseRequestHeaders, as a function of the lines the connection delivers. */
  function ParseRequest(lines: seq<string>): (r: Result<Headers, ParseError>)
    ensures r.Failure? <==> lines == [] || |Tokens(lines[0])| < 3
    ensures r.Success? ==> MethodKey in r.value && ResourceKey in r.value && ProtocolKey in r.value
  {
    if lines == [] then Failure(NoRequestLine)
    else match RequestLine(lines[0])
      case Failure(e) => Failure(e)
      case Success(m) =>
        FoldKeepsKeys(m, Entries(HeaderBlock(lines)));
        Success(Fold(m, Entries(HeaderBlock(lines))))
  }

  lemma {:induction false} FoldKeepsKeys(m: Headers, es: seq<Entry>)
    ensures m.Keys <= Fold(m, es).Keys
    decreases |es|
  {
    if es != [] {
      FoldKeepsKeys(m, es[..|es| - 1]);
    }
  }

  /** parseRequestHeaders: the request line seeds the map, then the header loop fills it. */
  method ParseRequestHeaders(lines: seq<string>) returns (r: Result<Headers, ParseError>)
    ensures r == ParseRequest(lines)
  {
    if |lines| == 0 {
      return Failure(NoRequestLine);
    }
    var first := RequestLine(lines[0]);
    if first.Failure? {
      return Failure(first.error);
    }
    var headers := ReadHeaderLines(lines, first.value);
    return Success(headers);
  }

  /** The header loop: reads lines until an empty one or the end, putting each named line in the map. */
  method ReadHeaderLines(lines: seq<string>, seed: Headers) returns (headers: Headers)
    requires lines != []
    ensures headers == Fold(seed, Entries(HeaderBlock(lines)))
  {
    headers := seed;
    var i := 1;
    while i < |lines| && |lines[i]| != 0
      invariant 1 <= i <= |lines|
      invariant HeadersFrom(lines, i, headers) == HeadersFrom(lines, 1, seed)
    {
      var line := lines[i];
      var e := HeaderField(line);
      ghost var before := headers;
      if e.Some? {
        headers := headers[e.value.0 := e.value.1];
      }
      assert headers == Put(before, e);
      i := i + 1;
    }
    HeadersFromFold(lines, seed);
  }

  /** The map the loop ends with when it resumes at line `i` holding `m`. */
  function HeadersFrom(lines: seq<string>, i: nat, m: Headers): Headers
    requires 1 <= i <= |lines|
    decreases |lines| - i
  {
    if i == |lines| || |lines[i]| == 0 then m else HeadersFrom(lines, i + 1, Put(m, HeaderField(lines[i])))
  }

  /** Reading from the request line on folds exactly the header block's entries. */
  lemma HeadersFromFold(lines: seq<string>, seed: Headers)
    requires lines != []
    ensures HeadersFrom(lines, 1, seed) == Fold(seed, Entries(HeaderBlock(lines)))
  {
    assert lines[1..1] == [];
    HeadersFromPrefix(lines, seed, 1);
  }

  /** Resuming at line `i` of the block with the lines before it folded gives the whole block's fold. */
  lemma {:induction false} HeadersFromPrefix(lines: seq<string>, seed: Headers, i: nat)
    requires 1 <= i <= |lines| && i <= BlockEnd(lines, 1)
    ensures HeadersFrom(lines, i, Fold(seed, Entries(lines[1..i]))) == Fold(seed, Entries(HeaderBlock(lines)))
    decreases |lines| - i
  {
    if i == |lines| || |lines[i]| == 0 {
      BlockEndExit(lines, i);
    } else {
      FoldNext(seed, lines, i);
      BlockEndStep(lines, i);
      HeadersFromPrefix(lines, seed, i + 1);
    }
  }

  /** A non-empty line before the block's end leaves the end further on. */
  lemma BlockEndStep(lines: seq<string>, i: nat)
    requires 1 <= i < |lines| && i <= BlockEnd(lines, 1) && |lines[i]| != 0
    ensures i + 1 <= BlockEnd(lines, 1)
  {
  }

  /** Where the loop stops, at an empty line or the end, is where the block ends. */
  lemma BlockEndExit(lines: seq<string>, i: nat)
    requires 1 <= i <= |lines| && i <= BlockEnd(lines, 1)
    requires i == |lines| || |lines[i]| == 0
    ensures lines[1..i] == HeaderBlock(lines)
  {
  }

  /** One more header line puts one more entry. */
  lemma FoldNext(m: Headers, lines: seq<string>, i: nat)
    requires 1 <= i < |lines|
    ensures Fold(m, Entries(lines[1..i + 1])) == Put(Fold(m, Entries(lines[1..i])), HeaderField(lines[i]))
  {
    assert lines[1..i + 1] == lines[1..i] + [lines[i]];
    EntriesSnoc(lines[1..i], lines[i]);
    FoldSnoc(m, Entries(lines[1..i]), HeaderField(lines[i]));
  }

  lemma EntriesSnoc(block: seq<string>, line: string)
    ensures Entries(block + [line]) == Entries(block) + [HeaderField(line)]
  {
    assert (block + [line])[..|block|] == block;
  }

  lemma FoldSnoc(m: Headers, es: seq<Entry>, e: Entry)
    ensures Fold(m, es + [e]) == Put(Fold(m, es), e)
  {
    assert (es + [e])[..|es|] == es;
  }

  // ---------------------------------------------------------------------------
  // What a header's value is after parsing
  // ---------------------------------------------------------------------------

  /** Entry `j` is the last of `es` that names `name`. */
  predicate LastDefinition(es: seq<Entry>, name: string, j: nat) {
    && j < |es|
    && Names(es[j], name)
    && forall k :: j < k < |es| ==> !Names(es[k], name)
  }

  /** Later lines win: the folded map holds the value of the last entry naming the key. */
  lemma {:induction false} FoldLastDefinition(m: Headers, es: seq<Entry>, name: string, j: nat)
    requires LastDefinition(es, name, j)
    ensures name in Fold(m, es)
    ensures Fold(m, es)[name] == es[j].value.1
    decreases |es|
  {
    var n := |es| - 1;
    if j < n {
      assert LastDefinition(es[..n], name, j);
      FoldLastDefinition(m, es[..n], name, j);
      assert !Names(es[n], name);
    }
  }

  /** A key no entry names keeps its earlier value, or stays absent. */
  lemma {:induction false} FoldUndefined(m: Headers, es: seq<Entry>, name: string)
    requires forall k :: 0 <= k < |es| ==> !Names(es[k], name)
    ensures name in Fold(m, es) <==> name in m
    ensures name in m ==> Fold(m, es)[name] == m[name]
    decreases |es|
  {
    if es != [] {
      var n := |es| - 1;
      assert !Names(es[n], name);
      FoldUndefined(m, es[..n], name);
    }
  }

  /** After a successful parse, a header's value is the trimmed value of its last line in the block. */
  lemma ParsedHeader(lines: seq<string>, name: string, j: nat)
    requires ParseRequest(lines).Success?
    requires LastDefinition(Entries(HeaderBlock(lines)), name, j)
    ensures name in ParseRequest(lines).value
    ensures ParseRequest(lines).value[name] == Entries(HeaderBlock(lines))[j].value.1
    ensures Entries(HeaderBlock(lines))[j] == HeaderField(HeaderBlock(lines)[j])
  {
    FoldLastDefinition(RequestLine(lines[0]).value, Entries(HeaderBlock(lines)), name, j);
    EntryAt(HeaderBlock(lines), j);
  }

  /**
   * When no header line names a request-line key, the parsed value is the one from the
   * request line.
   */
  lemma RequestLineFieldKept(lines: seq<string>, key: string)
    requires ParseRequest(lines).Success?
    requires key == MethodKey || key == ResourceKey || key == ProtocolKey
    requires forall k :: 0 <= k < |HeaderBlock(lines)| ==> !Defines(HeaderBlock(lines)[k], key)
    ensures ParseRequest(lines).value[key] == RequestLine(lines[0]).value[key]
  {
    var es := Entries(HeaderBlock(lines));
    forall k | 0 <= k < |es|
      ensures !Names(es[k], key)
    {
      EntryAt(HeaderBlock(lines), k);
    }
    FoldUndefined(RequestLine(lines[0]).value, es, key);
  }

  /**
   * A request whose header lines leave the three request-line keys alone parses to the
   * request line's upper-cased method, lower-cased resource and verbatim protocol.
   */
  lemma RequestLineKeysKept(lines: seq<string>, verb: string, resource: string, protocol: string)
    requires lines != [] && Tokens(lines[0]) == [verb, resource, protocol]
    requires forall i :: 1 <= i < |lines| ==>
      !Defines(lines[i], MethodKey) && !Defines(lines[i], ResourceKey) && !Defines(lines[i], ProtocolKey)
    ensures ParseRequest(lines).Success?
    ensures ParseRequest(lines).value[MethodKey] == ToUpper(verb)
    ensures ParseRequest(lines).value[ResourceKey] == ToLower(resource)
    ensures ParseRequest(lines).value[ProtocolKey] == protocol
  {
    RequestLineOfTokens(lines[0], verb, resource, protocol, []);
    var block := HeaderBlock(lines);
    assert forall k :: 0 <= k < |block| ==> block[k] == lines[k + 1];
    RequestLineFieldKept(lines, MethodKey);
    RequestLineFieldKept(lines, ResourceKey);
    RequestLineFieldKept(lines, ProtocolKey);
  }

  /** Lines after the first empty line are never read. */
  lemma BlankLineEndsHeaders(lines: seq<string>, j: nat)
    requires 1 <= j < |lines| && lines[j] == ""
    ensures ParseRequest(lines) == ParseRequest(lines[..j])
  {
    var e := BlockEnd(lines, 1);
    assert e <= j;
    BlockEndUnique(lines[..j], 1, e);
    assert HeaderBlock(lines) == HeaderBlock(lines[..j]);
  }

  /** A request with a single header line `name:value` maps the lower-cased name to the trimmed value. */
  lemma SingleHeader(requestLine: string, name: string, value: string)
    requires |Tokens(requestLine)| >= 3
    requires name != [] && ':' !in name
    ensures ToLower(name) in ParseRequest([requestLine, name + ":" + value]).value
    ensures ParseRequest([requestLine, name + ":" + value]).value[ToLower(name)] == Trim(value)
  {
    var line := name + ":" + value;
    var lines := [requestLine, line];
    HeaderFieldOfLine(name, value);
    assert lines[1] != "";
    BlockEndUnique(lines, 1, 2);
    assert HeaderBlock(lines) == [line];
    var es := Entries(HeaderBlock(lines));
    EntryAt(HeaderBlock(lines), 0);
    assert es[0] == Some((ToLower(name), Trim(value)));
    assert LastDefinition(es, ToLower(name), 0);
    ParsedHeader(lines, ToLower(name), 0);
  }

  /**
   * The shared map in action: a header line named "Resource" replaces the resource taken
   * from the request line, with its value trimmed but not lower-cased.
   */
  lemma ResourceHeaderOverrides(requestLine: string, value: string)
    requires |Tokens(requestLine)| >= 3
    ensures ParseRequest([requestLine, "Resource:" + value]).value[ResourceKey] == Trim(value)
  {
    ReservedHeaderNames();
    SingleHeader(requestLine, "Resource", value);
  }

  /** Likewise a header line named "Method" replaces the method, and its value is not upper-cased. */
  lemma MethodHeaderOverrides(requestLine: string, value: string)
    requires |Tokens(requestLine)| >= 3
    ensures ParseRequest([requestLine, "Method:" + value]).value[MethodKey] == Trim(value)
  {
    ReservedHeaderNames();
    SingleHeader(requestLine, "Method", value);
  }

  lemma ReservedHeaderNames()
    ensures ':' !in "Resource" && ToLower("Resource") == ResourceKey && "Resource" + ":" == "Resource:"
    ensures ':' !in "Method" && ToLower("Method") == MethodKey && "Method" + ":" == "Method:"
  {
  }
}
