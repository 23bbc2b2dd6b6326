/**
 * One connection handled by HttpRequestHandler.run: parse the request, pick a status and a
 * file, read the file, send the header block and the body, and log the request.
 */
module RequestHandler {
  import opened Common
  import opened Text
  import opened Http
  import opened Files
  import opened Io
  import opened RequestParser
  import opened PathResolver
  import opened Response

  // The error pages, looked up in the server root.
  const BadRequestPage := "400.html"
  const NotFoundPage := "404.html"
  const NotImplementedPage := "501.html"

  /** The configured roots and the server version (absent when the property is unset). */
  datatype Config = Config(serverRoot: Path, webRoot: Path, serverVersion: Option<string>)

  /** The status to answer with and the file whose contents become the body. */
  datatype Target = Target(status: Status, file: Path)

  /** The traversal test that precedes everything else. */
  predicate IsTraversal(resource: string) {
    Contains(resource, "./") || Contains(resource, "../")
  }

  /** An error page: status and file below the server root. */
  function ErrorPage(cfg: Config, status: Status, page: string): Target {
    Target(status, Child(cfg.serverRoot, page))
  }

  /**
   * The status and file `run` settles on, or None when resolving the resource raises
   * InvalidPathException.
   */
  function Decide(fs: FileSystem, cfg: Config, verb: string, resource: string): (r: Option<Target>)
    ensures r.None? <==> !IsTraversal(resource) && verb == Get && '\0' in resource
    ensures r.Some? && r.value.status == Ok ==> r.value.file in fs
  {
    if IsTraversal(resource) then Some(ErrorPage(cfg, BadRequest, BadRequestPage))
    else if verb == Get then
      if '\0' in resource then None
      else
        var candidate := cfg.webRoot + ResolvedNames(resource);
        if candidate !in fs then Some(ErrorPage(cfg, NotFound, NotFoundPage))
        else
          var file := if fs[candidate].Directory? then Child(candidate, IndexHtml) else candidate;
          if file in fs then Some(Target(Ok, file)) else Some(ErrorPage(cfg, NotFound, NotFoundPage))
    else Some(ErrorPage(cfg, NotImplemented, NotImplementedPage))
  }

  // ---------------------------------------------------------------------------
  // The decision table
  // ---------------------------------------------------------------------------

  /** Every resource holding "../" also holds "./", so the second half of the test never decides. */
  lemma DotDotSubsumed(resource: string)
    ensures Contains(resource, "../") ==> Contains(resource, "./")
    ensures IsTraversal(resource) <==> Contains(resource, "./")
  {
    if Contains(resource, "../") {
      var i :| 0 <= i <= |resource| - 3 && OccursAt(resource, "../", i);
      assert resource[i + 1..i + 3] == resource[i..i + 3][1..];
      assert OccursAt(resource, "./", i + 1);
    }
  }

  /** A resource holding "./" is answered with 400 and the 400 page, whatever the method. */
  lemma TraversalIsBadRequest(fs: FileSystem, cfg: Config, verb: string, resource: string)
    requires Contains(resource, "./")
    ensures Decide(fs, cfg, verb, resource) == Some(Target(BadRequest, cfg.serverRoot + [BadRequestPage]))
  {
  }

  /** Any other method than GET, with no traversal, is answered with 501 and the 501 page. */
  lemma OtherMethodNotImplemented(fs: FileSystem, cfg: Config, verb: string, resource: string)
    requires !Contains(resource, "./") && verb != Get
    ensures Decide(fs, cfg, verb, resource) == Some(Target(NotImplemented, cfg.serverRoot + [NotImplementedPage]))
  {
    DotDotSubsumed(resource);
  }

  /**
   * A GET with no traversal looks up the resolved path below the web root: missing gives 404,
   * a regular file gives 200 with that file, and a directory gives 200 with its index.html
   * if that exists, else 404.
   */
  lemma GetOutcome(fs: FileSystem, cfg: Config, resource: string)
    requires !Contains(resource, "./") && '\0' !in resource
    ensures var candidate := cfg.webRoot + ResolvedNames(resource);
      var notFound := Some(Target(NotFound, cfg.serverRoot + [NotFoundPage]));
      && (candidate !in fs ==> Decide(fs, cfg, Get, resource) == notFound)
      && (candidate in fs && fs[candidate].RegularFile? ==> Decide(fs, cfg, Get, resource) == Some(Target(Ok, candidate)))
      && (candidate in fs && fs[candidate].Directory? ==>
            Decide(fs, cfg, Get, resource) ==
              if candidate + [IndexHtml] in fs then Some(Target(Ok, candidate + [IndexHtml])) else notFound)
  {
    DotDotSubsumed(resource);
  }

  /** Resolving a resource holding NUL, on a GET with no traversal, raises an exception. */
  lemma NulAborts(fs: FileSystem, cfg: Config, verb: string, resource: string)
    ensures Decide(fs, cfg, verb, resource).None?
            <==> !Contains(resource, "./") && verb == Get && '\0' in resource
  {
    DotDotSubsumed(resource);
  }

  /**
   * What is served with 200 exists, lies below the web root, and is reached through ordinary
   * names only: no request escapes the web root.
   */
  lemma OkIsConfined(fs: FileSystem, cfg: Config, verb: string, resource: string)
    requires Decide(fs, cfg, verb, resource).Some?
    requires Decide(fs, cfg, verb, resource).value.status == Ok
    ensures var f := Decide(fs, cfg, verb, resource).value.file;
      && f in fs
      && StartsWithPath(f, cfg.webRoot)
      && |f| > |cfg.webRoot|
      && forall i :: |cfg.webRoot| <= i < |f| ==> IsField(f[i], {'/'}) && !IsDotSegment(f[i])
  {
    ResolvedClean(resource);
    var names := ResolvedNames(resource);
    var candidate := cfg.webRoot + names;
    var f := Decide(fs, cfg, verb, resource).value.file;
    assert IsField(IndexHtml, {'/'});
    forall i | |cfg.webRoot| <= i < |f|
      ensures IsField(f[i], {'/'}) && !IsDotSegment(f[i])
    {
      if i < |candidate| {
        assert f[i] == names[i - |cfg.webRoot|];
      }
    }
  }

  /** `p` lies at or below the directory `root`. */
  predicate StartsWithPath(p: Path, root: Path) {
    |root| <= |p| && p[..|root|] == root
  }

  // ---------------------------------------------------------------------------
  // The whole request
  // ---------------------------------------------------------------------------

  /**
   * What one run leaves behind. Aborted: an unchecked exception escaped (no request line,
   * fewer than three tokens, NUL in the path); nothing is sent or logged. IoFailed: reading
   * the chosen file failed; the IOException is caught and nothing is sent or logged.
   * Served: the header lines, the body and the log line.
   */
  datatype Outcome =
    | Aborted
    | IoFailed
    | Served(headerLines: seq<string>, body: Payload, logLine: string)

  /** Files.probeContentType, as a table: a path without an entry has no known type (null). */
  function MimeType(types: map<Path, string>, p: Path): Option<string> {
    if p in types then Some(types[p]) else None
  }

  /** The outcome of run for the request `lines` from `hostAddress`, answered at `date`. */
  function Serve(fs: FileSystem, types: map<Path, string>, cfg: Config, lines: seq<string>,
                 hostAddress: string, date: string): (r: Outcome)
    ensures lines == [] || |Tokens(lines[0])| < 3 ==> r == Aborted
    ensures r.Served? ==> |r.headerLines| >= 7 && r.headerLines[|r.headerLines| - 1] == ""
  {
    match ParseRequest(lines)
    case Failure(_) => Aborted
    case Success(headers) =>
      var verb, resource, protocol := headers[MethodKey], headers[ResourceKey], headers[ProtocolKey];
      match Decide(fs, cfg, verb, resource)
      case None => Aborted
      case Some(t) =>
        match ReadFile(fs, t.file)
        case None => IoFailed
        case Some(data) =>
          Served(ResponseHeaderLines(protocol, t.status, cfg.serverVersion, date, MimeType(types, t.file),
                                     |data|, ContentEncoding(headers)),
                 Payload(BodyEncoding(headers), data),
                 AccessLogLine(hostAddress, date, verb, t.status, UserAgent(headers), resource))
  }

  /**
   * A run ends without a response exactly when parsing the request line fails or the GET path
   * holds NUL; it ends with a caught IOException exactly when the chosen file is not a
   * regular file (a missing error page, or an index.html that is a directory).
   */
  lemma ServeFailures(fs: FileSystem, types: map<Path, string>, cfg: Config, lines: seq<string>,
                      hostAddress: string, date: string)
    ensures Serve(fs, types, cfg, lines, hostAddress, date) == Aborted
            <==> lines == [] || |Tokens(lines[0])| < 3
                 || (var h := ParseRequest(lines).value;
                     !Contains(h[ResourceKey], "./") && h[MethodKey] == Get && '\0' in h[ResourceKey])
    ensures Serve(fs, types, cfg, lines, hostAddress, date) == IoFailed
            <==> ParseRequest(lines).Success?
                 && (var h := ParseRequest(lines).value;
                     var d := Decide(fs, cfg, h[MethodKey], h[ResourceKey]);
                     d.Some? && ReadFile(fs, d.value.file).None?)
  {
    if ParseRequest(lines).Success? {
      var h := ParseRequest(lines).value;
      NulAborts(fs, cfg, h[MethodKey], h[ResourceKey]);
    }
  }

  /**
   * A served response: the status line is the request's protocol and the decided status; the
   * body is the whole decided file; Content-Length is that file's length, uncompressed even
   * when the body is gzipped; and a Content-Encoding line appears exactly when it is.
   */
  lemma ServedResponse(fs: FileSystem, types: map<Path, string>, cfg: Config, lines: seq<string>,
                       hostAddress: string, date: string)
    requires Serve(fs, types, cfg, lines, hostAddress, date).Served?
    ensures var o := Serve(fs, types, cfg, lines, hostAddress, date);
      var h := ParseRequest(lines).value;
      var t := Decide(fs, cfg, h[MethodKey], h[ResourceKey]).value;
      var n := |o.headerLines|;
      && t.file in fs && fs[t.file].RegularFile?
      && o.headerLines[0] == h[ProtocolKey] + StatusText(t.status)
      && o.body.data == fs[t.file].contents
      && n >= 4
      && StartsWith(o.headerLines[n - 3], ContentLengthPrefix)
      && IsDigits(o.headerLines[n - 3][|ContentLengthPrefix|..])
      && DecimalValue(o.headerLines[n - 3][|ContentLengthPrefix|..]) == |o.body.data|
      && ((exists i :: 1 <= i < n && StartsWith(o.headerLines[i], ContentEncodingPrefix))
          <==> o.body.encoding == Gzipped)
  {
    var h := ParseRequest(lines).value;
    var t := Decide(fs, cfg, h[MethodKey], h[ResourceKey]).value;
    var data := ReadFile(fs, t.file).value;
    var enc := ContentEncoding(h);
    var mime := MimeType(types, t.file);
    ContentLengthReadsBack(h[ProtocolKey], t.status, cfg.serverVersion, date, mime, |data|, enc);
    ContentEncodingAnnounced(h[ProtocolKey], t.status, cfg.serverVersion, date, mime, |data|, enc);
    EncodingAgrees(h);
  }

  /**
   * However it was asked for, a resource holding "./" is answered "400 Bad Request" on the
   * request's protocol, provided the 400 page can be read.
   */
  lemma TraversalAnswered(fs: FileSystem, types: map<Path, string>, cfg: Config, lines: seq<string>,
                          hostAddress: string, date: string)
    requires ParseRequest(lines).Success?
    requires Contains(ParseRequest(lines).value[ResourceKey], "./")
    requires ReadFile(fs, cfg.serverRoot + [BadRequestPage]).Some?
    ensures var o := Serve(fs, types, cfg, lines, hostAddress, date);
      && o.Served?
      && o.headerLines[0] == ParseRequest(lines).value[ProtocolKey] + StatusText(BadRequest)
      && o.body.data == fs[cfg.serverRoot + [BadRequestPage]].contents
  {
    var h := ParseRequest(lines).value;
    TraversalIsBadRequest(fs, cfg, h[MethodKey], h[ResourceKey]);
  }

  /**
   * The check the handler's tests make: for a request line `<verb> <resource> <protocol>`
   * followed by header lines that leave the three request-line keys alone, a client splitting
   * the response into tokens reads the protocol, then the code of the status decided for the
   * upper-cased verb and the lower-cased resource.
   */
  lemma ClientReadsStatus(fs: FileSystem, types: map<Path, string>, cfg: Config, verb: string,
                          resource: string, protocol: string, rest: seq<string>,
                          hostAddress: string, date: string)
    requires IsField(verb, TokenDelimiters) && IsField(resource, TokenDelimiters)
    requires IsField(protocol, TokenDelimiters)
    requires forall i :: 0 <= i < |rest| ==>
      !Defines(rest[i], MethodKey) && !Defines(rest[i], ResourceKey) && !Defines(rest[i], ProtocolKey)
    requires var d := Decide(fs, cfg, ToUpper(verb), ToLower(resource));
      d.Some? && ReadFile(fs, d.value.file).Some?
    ensures var o := Serve(fs, types, cfg, [JoinWith([verb, resource, protocol], ' ')] + rest, hostAddress, date);
      var d := Decide(fs, cfg, ToUpper(verb), ToLower(resource));
      && o.Served?
      && |Tokens(o.headerLines[0])| >= 2
      && Tokens(o.headerLines[0])[0] == protocol
      && Tokens(o.headerLines[0])[1] == DecimalString(StatusCode(d.value.status))
  {
    var lines := [JoinWith([verb, resource, protocol], ' ')] + rest;
    JoinedTokens(verb, resource, protocol, []);
    assert [verb, resource, protocol] + [] == [verb, resource, protocol];
    RequestLineKeysKept(lines, verb, resource, protocol);
    var t := Decide(fs, cfg, ToUpper(verb), ToLower(resource)).value;
    StatusLineTokens(protocol, t.status);
  }

  class HttpRequestHandler {
    const client: Socket
    const config: Config
    const logger: LogStream

    constructor(client: Socket, config: Config, logger: LogStream)
      ensures this.client == client && this.config == config && this.logger == logger
    {
      this.client := client;
      this.config := config;
      this.logger := logger;
    }

    /** The status/file decision in run: the branches assign status and file in turn. */
    method DecideTarget(fs: FileSystem, verb: string, resource: string) returns (r: Option<Target>)
      ensures r == Decide(fs, config, verb, resource)
    {
      var status: Status;
      var file: Path;
      if Contains(resource, "./") || Contains(resource, "../") {
        status := BadRequest;
        file := Child(config.serverRoot, BadRequestPage);
      } else if Get == verb {
        var resolved := ResolveResource(resource);
        if resolved.None? {
          return None;
        }
        ResolvedRoundTrip(resource);
        file := Resolve(config.webRoot, resolved.value);
        if file !in fs {
          status := NotFound;
          file := Child(config.serverRoot, NotFoundPage);
        } else {
          if fs[file].Directory? {
            file := Child(file, IndexHtml);
          }
          if file in fs {
            status := Ok;
          } else {
            status := NotFound;
            file := Child(config.serverRoot, NotFoundPage);
          }
        }
      } else {
        file := Child(config.serverRoot, NotImplementedPage);
        status := NotImplemented;
      }
      return Some(Target(status, file));
    }

    /**
     * run, given the filesystem, the content types it would probe and the formatted date.
     * A served request adds its header lines and one body to the client and one line to the
     * log; any other outcome leaves both untouched.
     */
    method Run(fs: FileSystem, types: map<Path, string>, date: string)
      modifies client, logger
      ensures var o := Serve(fs, types, config, client.requestLines, client.hostAddress, date);
        && (o.Served? ==> client.headerLines == old(client.headerLines) + o.headerLines
                          && client.payloads == old(client.payloads) + [o.body]
                          && logger.entries == old(logger.entries) + [o.logLine])
        && (!o.Served? ==> client.headerLines == old(client.headerLines)
                           && client.payloads == old(client.payloads)
                           && logger.entries == old(logger.entries))
    {
      var parsed := ParseRequestHeaders(client.requestLines);
      if parsed.Failure? {
        return;
      }
      var requestHeaders := parsed.value;
      var verb := requestHeaders[MethodKey];
      var resource := requestHeaders[ResourceKey];
      var protocol := requestHeaders[ProtocolKey];
      var target := DecideTarget(fs, verb, resource);
      if target.None? {
        return;
      }
      var status, outputFile := target.value.status, target.value.file;
      var mimeType := MimeType(types, outputFile);
      var data := ReadFile(fs, outputFile);
      if data.None? {
        return;
      }
      WriteResponseHeaders(client, protocol, status, config.serverVersion, date, mimeType, |data.value|,
                           ContentEncoding(requestHeaders));
      client.WriteBody(Payload(BodyEncoding(requestHeaders), data.value));
      logger.Print(AccessLogLine(client.hostAddress, date, verb, status, UserAgent(requestHeaders), resource));
    }
  }
}
