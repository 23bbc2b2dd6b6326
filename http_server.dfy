/**
 * The earlier single-class server, HttpServer.run: it reads only the request line, answers
 * from a fixed table without looking at the requested path on disk, prints a console line,
 * and sends a fixed header block.
 */
module LegacyServer {
  import opened Common
  import opened Text
  import opened Http
  import opened Files
  import opened Io
  import opened RequestParser
  import opened Response
  import RequestHandler

  // The three pages, in the working directory.
  const IndexFile: Path := ["index.html"]
  const NotFoundFile: Path := ["404.html"]
  const NotImplementedFile: Path := ["501.html"]

  const ServerLine := "Server: HttpServer v1.0"
  const ContentTypeLine := "Content-Type: text/html; charset=utf-8"

  /** The fixed table: GET of a path ending in "/" is the index page, any other GET is 404. */
  function LegacyDecide(verb: string, resource: string): (r: RequestHandler.Target)
    ensures r.status != BadRequest
    ensures verb != Get ==> r.status == NotImplemented
  {
    if verb == Get then
      if EndsWith(resource, "/") then RequestHandler.Target(Ok, IndexFile) else RequestHandler.Target(NotFound, NotFoundFile)
    else RequestHandler.Target(NotImplemented, NotImplementedFile)
  }

  /**
   * The table read both ways: 200 exactly for a GET of a path ending in "/", 501 exactly for
   * any other method, and each status with its own page.
   */
  lemma LegacyTable(verb: string, resource: string)
    ensures LegacyDecide(verb, resource).status == Ok <==> verb == Get && EndsWith(resource, "/")
    ensures LegacyDecide(verb, resource).status == NotImplemented <==> verb != Get
    ensures LegacyDecide(verb, resource).status == NotFound <==> verb == Get && !EndsWith(resource, "/")
    ensures LegacyDecide(verb, resource).file == IndexFile <==> LegacyDecide(verb, resource).status == Ok
    ensures LegacyDecide(verb, resource).file == NotFoundFile <==> LegacyDecide(verb, resource).status == NotFound
  {
    assert IndexFile != NotFoundFile && IndexFile != NotImplementedFile && NotFoundFile != NotImplementedFile by {
      assert IndexFile[0][0] != NotFoundFile[0][0] && IndexFile[0][0] != NotImplementedFile[0][0];
      assert NotFoundFile[0][0] != NotImplementedFile[0][0];
    }
  }

  /** The console line: method, space, resource immediately followed by the status text, space, date. */
  function ConsoleLine(verb: string, resource: string, status: Status, date: string): (r: string)
    ensures |r| > |verb| && r[..|verb|] == verb && r[|r| - 1] == '\n'
  {
    verb + " " + resource + StatusText(status) + " " + date + "\n"
  }

  /** The header lines, the last one empty. */
  function LegacyHeaderLines(protocol: string, status: Status, date: string, length: nat): (r: seq<string>)
    ensures |r| == 6 && r[0] == protocol + StatusText(status) && r[5] == ""
  {
    [protocol + StatusText(status), ServerLine, DatePrefix + date]
    + [ContentTypeLine, ContentLengthPrefix + DecimalString(length), ""]
  }

  /**
   * What one run leaves behind. Aborted: no request line, or fewer than three tokens.
   * ReadFailed: the console line was printed, then reading the page failed and nothing was
   * sent. Served: the console line, the header lines and the body.
   */
  datatype LegacyOutcome =
    | Aborted
    | ReadFailed(console: string)
    | Served(console: string, headerLines: seq<string>, body: seq<byte>)

  function LegacyServe(fs: FileSystem, lines: seq<string>, date: string): (r: LegacyOutcome)
    ensures r.Aborted? <==> lines == [] || |Tokens(lines[0])| < 3
  {
    if lines == [] then Aborted
    else match RequestLine(lines[0])
      case Failure(_) => Aborted
      case Success(m) =>
        var verb, resource, protocol := m[MethodKey], m[ResourceKey], m[ProtocolKey];
        var t := LegacyDecide(verb, resource);
        var console := ConsoleLine(verb, resource, t.status, date);
        match ReadFile(fs, t.file)
        case None => ReadFailed(console)
        case Some(data) => Served(console, LegacyHeaderLines(protocol, t.status, date, |data|), data)
  }

  /**
   * The status never depends on the disk: two runs of the same request against different
   * files print the same console line and, when both read their page, the same status line.
   */
  lemma StatusIgnoresDisk(fs1: FileSystem, fs2: FileSystem, lines: seq<string>, date: string)
    ensures LegacyServe(fs1, lines, date).Aborted? <==> LegacyServe(fs2, lines, date).Aborted?
    ensures !LegacyServe(fs1, lines, date).Aborted? ==>
      LegacyServe(fs1, lines, date).console == LegacyServe(fs2, lines, date).console
    ensures LegacyServe(fs1, lines, date).Served? && LegacyServe(fs2, lines, date).Served? ==>
      LegacyServe(fs1, lines, date).headerLines[0] == LegacyServe(fs2, lines, date).headerLines[0]
  {
  }

  /**
   * The header block: the status line, then five lines none of which is a Connection or
   * Content-Encoding header; the only empty line is the last, and Content-Length reads back
   * as the body's length.
   */
  lemma LegacyFraming(protocol: string, status: Status, date: string, length: nat)
    ensures var lines := LegacyHeaderLines(protocol, status, date, length);
      && |lines| == 6
      && lines[5] == ""
      && (forall i :: 0 <= i < 5 ==> lines[i] != "")
      && (forall i :: 1 <= i < 6 ==>
            !StartsWith(lines[i], ConnectionPrefix) && !StartsWith(lines[i], ContentEncodingPrefix))
      && StartsWith(lines[4], ContentLengthPrefix)
      && IsDigits(lines[4][|ContentLengthPrefix|..])
      && DecimalValue(lines[4][|ContentLengthPrefix|..]) == length
  {
    var lines := LegacyHeaderLines(protocol, status, date, length);
    FixedLinesNotConnection(lines, date, length);
    PrefixOfConcat(ContentLengthPrefix, DecimalString(length));
    assert lines[4][|ContentLengthPrefix|..] == DecimalString(length);
    DecimalRoundTrip(length);
    forall i | 0 <= i < 5
      ensures lines[i] != ""
    {
      assert |lines[i]| > 0;
    }
  }

  lemma FixedLinesNotConnection(lines: seq<string>, date: string, length: nat)
    requires |lines| == 6 && lines[1] == ServerLine && lines[2] == DatePrefix + date
    requires lines[3] == ContentTypeLine && lines[4] == ContentLengthPrefix + DecimalString(length)
    requires lines[5] == ""
    ensures forall i :: 1 <= i < 6 ==>
      !StartsWith(lines[i], ConnectionPrefix) && !StartsWith(lines[i], ContentEncodingPrefix)
  {
    forall i | 1 <= i < 6
      ensures !StartsWith(lines[i], ConnectionPrefix) && !StartsWith(lines[i], ContentEncodingPrefix)
    {
      if i == 1 || i == 3 {
        FixedLinesDiffer();
      } else if i == 2 {
        PrefixDiffers(DatePrefix, date, ConnectionPrefix, 0);
        PrefixDiffers(DatePrefix, date, ContentEncodingPrefix, 0);
      } else if i == 4 {
        PrefixDiffers(ContentLengthPrefix, DecimalString(length), ConnectionPrefix, 3);
        PrefixDiffers(ContentLengthPrefix, DecimalString(length), ContentEncodingPrefix, 8);
      }
    }
  }

  lemma FixedLinesDiffer()
    ensures !StartsWith(ServerLine, ConnectionPrefix) && !StartsWith(ServerLine, ContentEncodingPrefix)
    ensures !StartsWith(ContentTypeLine, ConnectionPrefix) && !StartsWith(ContentTypeLine, ContentEncodingPrefix)
  {
    assert ServerLine[0] != ConnectionPrefix[0] && ServerLine[0] != ContentEncodingPrefix[0];
    assert ContentTypeLine[3] != ConnectionPrefix[3] && ContentTypeLine[8] != ContentEncodingPrefix[8];
  }

  /**
   * The check the server's tests make: for the request line `<verb> <resource> <protocol>`,
   * the console line is printed, and when the page can be read a client splitting the
   * response into tokens reads the protocol, then the code the table gives for the
   * upper-cased verb and the lower-cased resource.
   */
  lemma LegacyClientReadsStatus(fs: FileSystem, verb: string, resource: string, protocol: string,
                                rest: seq<string>, date: string)
    requires IsField(verb, TokenDelimiters) && IsField(resource, TokenDelimiters)
    requires IsField(protocol, TokenDelimiters)
    ensures var o := LegacyServe(fs, [JoinWith([verb, resource, protocol], ' ')] + rest, date);
      var t := LegacyDecide(ToUpper(verb), ToLower(resource));
      && !o.Aborted?
      && o.console == ConsoleLine(ToUpper(verb), ToLower(resource), t.status, date)
      && (ReadFile(fs, t.file).Some? ==>
            && o.Served?
            && |Tokens(o.headerLines[0])| >= 2
            && Tokens(o.headerLines[0])[0] == protocol
            && Tokens(o.headerLines[0])[1] == DecimalString(StatusCode(t.status)))
  {
    RequestLineFields(verb, resource, protocol, []);
    assert [verb, resource, protocol] + [] == [verb, resource, protocol];
    var t := LegacyDecide(ToUpper(verb), ToLower(resource));
    StatusLineTokens(protocol, t.status);
  }

  class HttpServer {
    const request: Socket

    constructor(request: Socket)
      ensures this.request == request
    {
      this.request := request;
    }

    /** The branches of run that pick the status and the page. */
    method DecideFile(verb: string, resource: string) returns (status: Status, file: Path)
      ensures RequestHandler.Target(status, file) == LegacyDecide(verb, resource)
    {
      if verb == Get {
        if EndsWith(resource, "/") {
          file := IndexFile;
          status := Ok;
        } else {
          file := NotFoundFile;
          status := NotFound;
        }
      } else {
        file := NotImplementedFile;
        status := NotImplemented;
      }
    }

    /**
     * run, given the working directory's files, the formatted date, and the message of the
     * IOException reading the page would raise (None for a null message); `console` stands for
     * System.out. The console line is printed before the page is read, and a failed read adds
     * the exception's message on a line of its own.
     */
    method Run(fs: FileSystem, date: string, ioMessage: Option<string>, console: LogStream)
      modifies request, console
      ensures var o := LegacyServe(fs, request.requestLines, date);
        && (o.Aborted? ==> console.entries == old(console.entries))
        && (o.Served? ==> console.entries == old(console.entries) + [o.console])
        && (o.ReadFailed? ==> console.entries == old(console.entries) + [o.console, OrNull(ioMessage) + "\n"])
        && (o.Served? ==> request.headerLines == old(request.headerLines) + o.headerLines
                          && request.payloads == old(request.payloads) + [Payload(Identity, o.body)])
        && (!o.Served? ==> request.headerLines == old(request.headerLines)
                           && request.payloads == old(request.payloads))
    {
      if |request.requestLines| == 0 {
        return;
      }
      var tokens := Tokens(request.requestLines[0]);
      if |tokens| < 3 {
        return;
      }
      var verb := ToUpper(tokens[0]);
      var resource := ToLower(tokens[1]);
      var protocol := tokens[2];

      assert RequestLine(request.requestLines[0])
             == Success(map[MethodKey := verb, ResourceKey := resource, ProtocolKey := protocol]);
      var status, file := DecideFile(verb, resource);

      console.Print(ConsoleLine(verb, resource, status, date));
      var data := ReadFile(fs, file);
      if data.None? {
        console.Print(OrNull(ioMessage) + "\n");
        return;
      }

      ghost var before := request.headerLines;
      request.PrintLine(protocol + StatusText(status));
      request.PrintLine(ServerLine);
      request.PrintLine(DatePrefix + date);
      AppendThree(before, protocol + StatusText(status), ServerLine, DatePrefix + date);
      ghost var front := request.headerLines;
      request.PrintLine(ContentTypeLine);
      request.PrintLine(ContentLengthPrefix + DecimalString(|data.value|));
      request.PrintLine("");
      AppendThree(front, ContentTypeLine, ContentLengthPrefix + DecimalString(|data.value|), "");
      AppendAssoc3(before, [protocol + StatusText(status), ServerLine, DatePrefix + date],
                   [ContentTypeLine, ContentLengthPrefix + DecimalString(|data.value|), ""]);
      request.WriteBody(Payload(Identity, data.value));
    }
  }
}
