/** The protocol constants both servers use: status texts, header prefixes, reserved map keys. */
module Http {
  import opened Text

  /** The four outcomes the servers answer with. */
  datatype Status = Ok | BadRequest | NotFound | NotImplemented

  function StatusCode(s: Status): nat {
    match s
    case Ok => 200
    case BadRequest => 400
    case NotFound => 404
    case NotImplemented => 501
  }

  /** The words of the status text: the code, then the reason phrase. */
  function StatusWords(s: Status): seq<string> {
    match s
    case Ok => ["200", "OK"]
    case BadRequest => ["400", "Bad", "Request"]
    case NotFound => ["404", "Not", "Found"]
    case NotImplemented => ["501", "Not", "Implemented"]
  }

  /** The status text appended to the protocol, with its own leading space. */
  function StatusText(s: Status): string {
    match s
    case Ok => " 200 OK"
    case BadRequest => " 400 Bad Request"
    case NotFound => " 404 Not Found"
    case NotImplemented => " 501 Not Implemented"
  }

  /**
   * A client that splits the status line into tokens reads the protocol first and the
   * numeric code second, provided the protocol is itself one token.
   */
  lemma StatusLineTokens(protocol: string, s: Status)
    requires IsField(protocol, TokenDelimiters)
    ensures |Tokens(protocol + StatusText(s))| >= 2
    ensures Tokens(protocol + StatusText(s))[0] == protocol
    ensures Tokens(protocol + StatusText(s))[1] == DecimalString(StatusCode(s))
  {
    var rest := StatusWords(s);
    StatusTextWords(s);
    var words := [protocol] + rest;
    assert words[1..] == rest;
    assert protocol + StatusText(s) == JoinWith(words, ' ');
    FieldsOfJoin(words, ' ', TokenDelimiters);
  }

  /** The status text is a space followed by its words joined by spaces, the first being the code. */
  lemma StatusTextWords(s: Status)
    ensures |StatusWords(s)| >= 2
    ensures StatusWords(s)[0] == DecimalString(StatusCode(s))
    ensures StatusText(s) == " " + JoinWith(StatusWords(s), ' ')
    ensures forall i :: 0 <= i < |StatusWords(s)| ==> IsField(StatusWords(s)[i], TokenDelimiters)
  {
    CodeNumerals();
    match s {
      case Ok => OkWords();
      case BadRequest => BadRequestWords();
      case NotFound => NotFoundWords();
      case NotImplemented => NotImplementedWords();
    }
  }

  lemma CodeNumerals()
    ensures DecimalString(200) == "200" && DecimalString(400) == "400"
    ensures DecimalString(404) == "404" && DecimalString(501) == "501"
  {
  }

  lemma OkWords()
    ensures StatusText(Ok) == " " + JoinWith(StatusWords(Ok), ' ')
    ensures forall i :: 0 <= i < |StatusWords(Ok)| ==> IsField(StatusWords(Ok)[i], TokenDelimiters)
  {
    JoinTwo("200", "OK", ' ');
  }

  lemma BadRequestWords()
    ensures StatusText(BadRequest) == " " + JoinWith(StatusWords(BadRequest), ' ')
    ensures forall i :: 0 <= i < |StatusWords(BadRequest)| ==> IsField(StatusWords(BadRequest)[i], TokenDelimiters)
  {
    JoinThree("400", "Bad", "Request", ' ');
  }

  lemma NotFoundWords()
    ensures StatusText(NotFound) == " " + JoinWith(StatusWords(NotFound), ' ')
    ensures forall i :: 0 <= i < |StatusWords(NotFound)| ==> IsField(StatusWords(NotFound)[i], TokenDelimiters)
  {
    JoinThree("404", "Not", "Found", ' ');
  }

  lemma NotImplementedWords()
    ensures StatusText(NotImplemented) == " " + JoinWith(StatusWords(NotImplemented), ' ')
    ensures forall i :: 0 <= i < |StatusWords(NotImplemented)| ==> IsField(StatusWords(NotImplemented)[i], TokenDelimiters)
  {
    JoinThree("501", "Not", "Implemented", ' ');
  }

  lemma JoinTwo(a: string, b: string, sep: char)
    ensures JoinWith([a, b], sep) == a + [sep] + b
  {
    assert [a, b][1..] == [b];
  }

  lemma JoinThree(a: string, b: string, c: string, sep: char)
    ensures JoinWith([a, b, c], sep) == a + [sep] + b + [sep] + c
  {
    assert [a, b, c][1..] == [b, c];
    JoinTwo(b, c, sep);
  }

  const Get := "GET"

  // Keys of the request map: three filled from the request line, two read as headers.
  const MethodKey := "method"
  const ResourceKey := "resource"
  const ProtocolKey := "protocol"
  const UserAgentKey := "user-agent"
  const AcceptEncodingKey := "accept-encoding"

  // Prefixes of the response header lines.
  const ServerPrefix := "Server: "
  const DatePrefix := "Date: "
  const ContentEncodingPrefix := "Content-Encoding: "
  const ContentTypePrefix := "Content-Type: "
  const ContentLengthPrefix := "Content-Length: "
  const ConnectionPrefix := "Connection: "

  const Gzip := "gzip"
}
