/**
 * What the handler sends back besides the body: the choice of content encoding, the block
 * of response header lines, and the access-log line.
 */
module Response {
  import opened Common
  import opened Text
  import opened Http
  import opened Files
  import opened Io
  import opened RequestParser

  /** `getOrDefault(ACCEPT_ENCODING, "")`. */
  function AcceptedEncoding(headers: Headers): string {
    if AcceptEncodingKey in headers then headers[AcceptEncodingKey] else ""
  }

  /** getContentEncoding: "gzip" when the accepted encodings mention it (case-sensitively), else null. */
  function ContentEncoding(headers: Headers): (r: Option<string>)
    ensures r.Some? <==> Contains(AcceptedEncoding(headers), Gzip)
    ensures r.Some? ==> r.value == Gzip
  {
    if Contains(AcceptedEncoding(headers), Gzip) then Some(Gzip) else None
  }

  /** getDataOutputStream: a GZIPOutputStream under the same condition, a buffered stream otherwise. */
  function BodyEncoding(headers: Headers): (e: Io.Encoding)
    ensures e == Io.Gzipped <==> Contains(AcceptedEncoding(headers), Gzip)
  {
    if Contains(AcceptedEncoding(headers), Gzip) then Io.Gzipped else Io.Identity
  }

  /** The Content-Encoding header is announced exactly when the body stream compresses. */
  lemma EncodingAgrees(headers: Headers)
    ensures ContentEncoding(headers).Some? <==> BodyEncoding(headers) == Io.Gzipped
  {
  }

  /** The lines writeResponseHeaders prints, the last one empty. */
  function ResponseHeaderLines(protocol: string, status: Status, serverVersion: Option<string>,
                               date: string, mimeType: Option<string>, length: nat,
                               contentEncoding: Option<string>): (r: seq<string>)
    ensures |r| == 7 + |EncodingLines(contentEncoding)|
    ensures r[0] == protocol + StatusText(status) && r[|r| - 1] == ""
  {
    [protocol + StatusText(status), ServerPrefix + OrNull(serverVersion), DatePrefix + date]
    + EncodingLines(contentEncoding)
    + [ContentTypePrefix + (OrNull(mimeType) + Charset), ContentLengthPrefix + DecimalString(length),
       ConnectionPrefix + "close", ""]
  }

  /** The Content-Encoding line, present only when an encoding was chosen. */
  function EncodingLines(contentEncoding: Option<string>): seq<string> {
    if contentEncoding.Some? then [ContentEncodingPrefix + contentEncoding.value] else []
  }

  const Charset := ";charset=\"utf-8\""

  /** writeResponseHeaders: prints the header block to the client, in order. */
  method WriteResponseHeaders(out: Io.Socket, protocol: string, status: Status,
                              serverVersion: Option<string>, date: string,
                              mimeType: Option<string>, length: nat, contentEncoding: Option<string>)
    modifies out
    ensures out.headerLines == old(out.headerLines)
              + ResponseHeaderLines(protocol, status, serverVersion, date, mimeType, length, contentEncoding)
    ensures out.payloads == old(out.payloads)
  {
    ghost var before := out.headerLines;
    out.PrintLine(protocol + StatusText(status));
    out.PrintLine(ServerPrefix + OrNull(serverVersion));
    out.PrintLine(DatePrefix + date);
    Io.AppendThree(before, protocol + StatusText(status), ServerPrefix + OrNull(serverVersion), DatePrefix + date);
    ghost var front := out.headerLines;
    if contentEncoding.Some? {
      out.PrintLine(ContentEncodingPrefix + contentEncoding.value);
    }
    ghost var middle := out.headerLines;
    assert middle == front + EncodingLines(contentEncoding);
    out.PrintLine(ContentTypePrefix + (OrNull(mimeType) + Charset));
    out.PrintLine(ContentLengthPrefix + DecimalString(length));
    out.PrintLine(ConnectionPrefix + "close");
    out.PrintLine("");
    Io.AppendFour(middle, ContentTypePrefix + (OrNull(mimeType) + Charset), ContentLengthPrefix + DecimalString(length),
               ConnectionPrefix + "close", "");
    Io.AppendAssoc(before, [protocol + StatusText(status), ServerPrefix + OrNull(serverVersion), DatePrefix + date],
                EncodingLines(contentEncoding),
                [ContentTypePrefix + (OrNull(mimeType) + Charset), ContentLengthPrefix + DecimalString(length),
                 ConnectionPrefix + "close", ""]);
  }

  // ---------------------------------------------------------------------------
  // Properties of the header block
  // ---------------------------------------------------------------------------

  /** The block ends with its only empty line, which is what tells the client the headers are over. */
  lemma HeaderBlockTerminated(protocol: string, status: Status, serverVersion: Option<string>,
                              date: string, mimeType: Option<string>, length: nat,
                              contentEncoding: Option<string>)
    ensures var lines := ResponseHeaderLines(protocol, status, serverVersion, date, mimeType, length, contentEncoding);
      && |lines| >= 2
      && lines[|lines| - 1] == ""
      && forall i :: 0 <= i < |lines| - 1 ==> lines[i] != ""
  {
    var lines := ResponseHeaderLines(protocol, status, serverVersion, date, mimeType, length, contentEncoding);
    forall i | 0 <= i < |lines| - 1
      ensures lines[i] != ""
    {
      assert |lines[i]| > 0;
    }
  }

  /**
   * A client splitting the status line into tokens reads the protocol, then the numeric code,
   * as the handler's tests do.
   */
  lemma StatusLineReadsBack(protocol: string, status: Status, serverVersion: Option<string>,
                            date: string, mimeType: Option<string>, length: nat,
                            contentEncoding: Option<string>)
    requires IsField(protocol, TokenDelimiters)
    ensures var first := ResponseHeaderLines(protocol, status, serverVersion, date, mimeType, length, contentEncoding)[0];
      && |Tokens(first)| >= 2
      && Tokens(first)[0] == protocol
      && Tokens(first)[1] == DecimalString(StatusCode(status))
  {
    StatusLineTokens(protocol, status);
  }

  /**
   * There is a Content-Encoding line among the headers after the status line exactly when an
   * encoding was chosen, and then it is the fourth line and carries that encoding.
   */
  lemma ContentEncodingAnnounced(protocol: string, status: Status, serverVersion: Option<string>,
                                 date: string, mimeType: Option<string>, length: nat,
                                 contentEncoding: Option<string>)
    ensures var lines := ResponseHeaderLines(protocol, status, serverVersion, date, mimeType, length, contentEncoding);
      (exists i :: 1 <= i < |lines| && StartsWith(lines[i], ContentEncodingPrefix))
      <==> contentEncoding.Some?
    ensures var lines := ResponseHeaderLines(protocol, status, serverVersion, date, mimeType, length, contentEncoding);
      contentEncoding.Some? ==> lines[3] == ContentEncodingPrefix + contentEncoding.value
  {
    var lines := ResponseHeaderLines(protocol, status, serverVersion, date, mimeType, length, contentEncoding);
    var head := [ServerPrefix + OrNull(serverVersion), DatePrefix + date];
    var tail := [ContentTypePrefix + (OrNull(mimeType) + Charset), ContentLengthPrefix + DecimalString(length),
                 ConnectionPrefix + "close", ""];
    OtherLinesNotEncoding(head, tail, serverVersion, date, mimeType, length);
    if contentEncoding.Some? {
      PrefixOfConcat(ContentEncodingPrefix, contentEncoding.value);
      assert StartsWith(lines[3], ContentEncodingPrefix);
    } else {
      forall i | 1 <= i < |lines|
        ensures !StartsWith(lines[i], ContentEncodingPrefix)
      {
        if i < 3 { assert lines[i] == head[i - 1]; } else { assert lines[i] == tail[i - 3]; }
      }
    }
  }

  /** None of the other header lines starts like a Content-Encoding line. */
  lemma OtherLinesNotEncoding(head: seq<string>, tail: seq<string>, serverVersion: Option<string>,
                              date: string, mimeType: Option<string>, length: nat)
    requires head == [ServerPrefix + OrNull(serverVersion), DatePrefix + date]
    requires tail == [ContentTypePrefix + (OrNull(mimeType) + Charset), ContentLengthPrefix + DecimalString(length),
                      ConnectionPrefix + "close", ""]
    ensures forall j :: 0 <= j < |head| ==> !StartsWith(head[j], ContentEncodingPrefix)
    ensures forall j :: 0 <= j < |tail| ==> !StartsWith(tail[j], ContentEncodingPrefix)
  {
    PrefixDiffers(ServerPrefix, OrNull(serverVersion), ContentEncodingPrefix, 0);
    PrefixDiffers(DatePrefix, date, ContentEncodingPrefix, 0);
    PrefixDiffers(ContentTypePrefix, OrNull(mimeType) + Charset, ContentEncodingPrefix, 8);
    PrefixDiffers(ContentLengthPrefix, DecimalString(length), ContentEncodingPrefix, 8);
    PrefixDiffers(ConnectionPrefix, "close", ContentEncodingPrefix, 3);
  }

  lemma PrefixOfConcat(p: string, x: string)
    ensures StartsWith(p + x, p)
  {
    assert (p + x)[..|p|] == p;
  }

  /** A line that begins with `p` cannot begin with `q` when `p` and `q` differ at index `k`. */
  lemma PrefixDiffers(p: string, x: string, q: string, k: nat)
    requires k < |p| && k < |q| && p[k] != q[k]
    ensures !StartsWith(p + x, q)
  {
    assert (p + x)[k] == p[k];
  }

  /** The Content-Length line declares the number handed in, and reads back as that number. */
  lemma ContentLengthReadsBack(protocol: string, status: Status, serverVersion: Option<string>,
                               date: string, mimeType: Option<string>, length: nat,
                               contentEncoding: Option<string>)
    ensures var lines := ResponseHeaderLines(protocol, status, serverVersion, date, mimeType, length, contentEncoding);
      && |lines| >= 4
      && StartsWith(lines[|lines| - 3], ContentLengthPrefix)
      && IsDigits(lines[|lines| - 3][|ContentLengthPrefix|..])
      && DecimalValue(lines[|lines| - 3][|ContentLengthPrefix|..]) == length
  {
    var line := ContentLengthPrefix + DecimalString(length);
    PrefixOfConcat(ContentLengthPrefix, DecimalString(length));
    assert line[|ContentLengthPrefix|..] == DecimalString(length);
    DecimalRoundTrip(length);
  }

  // ---------------------------------------------------------------------------
  // The access log
  // ---------------------------------------------------------------------------

  /** `getOrDefault(UA, "")`. */
  function UserAgent(headers: Headers): string {
    if UserAgentKey in headers then headers[UserAgentKey] else ""
  }

  /** The log line: `<address> [<date>] "<method>"<status> <user agent> <resource>`, then a newline. */
  function AccessLogLine(hostAddress: string, date: string, request: string, status: Status,
                         userAgent: string, resource: string): (r: string)
    ensures |r| > |hostAddress| && r[..|hostAddress|] == hostAddress && r[|r| - 1] == '\n'
  {
    hostAddress + " [" + date + "] \"" + request + "\"" + StatusText(status) + " " + userAgent + " "
    + resource + "\n"
  }

  /**
   * Fields free of newlines give one log entry per request: the only newline is the final one.
   * Header values never hold one, since the request is read line by line.
   */
  lemma AccessLogOneLine(hostAddress: string, date: string, request: string, status: Status,
                         userAgent: string, resource: string)
    requires '\n' !in hostAddress && '\n' !in date && '\n' !in request
    requires '\n' !in userAgent && '\n' !in resource
    ensures var line := AccessLogLine(hostAddress, date, request, status, userAgent, resource);
      && EndsWith(line, "\n")
      && '\n' !in line[..|line| - 1]
  {
    var body := hostAddress + " [" + date + "] \"" + request + "\"" + StatusText(status) + " " + userAgent + " "
      + resource;
    var line := AccessLogLine(hostAddress, date, request, status, userAgent, resource);
    assert line == body + "\n";
    assert line[..|line| - 1] == body;
    assert '\n' !in StatusText(status);
  }
}
