# http-server, modelled in Dafny

This project models the request handling of cx0der/http-server, a small static-file HTTP
server written in Java. It covers two classes.

- `HttpRequestHandler` handles one connection per instance. It parses the request line and
  the header lines into one map. It rejects resources that contain `./` with 400. It answers
  any method other than GET with 501. For a GET, it resolves the resource below the web root,
  falling back to `index.html` for directories and to a 404 page for missing files. It then
  sends the header block and the body, gzip-encoded when the client accepts gzip, and writes
  one access-log line.
- `HttpServer` is the earlier single-class server. It reads only the request line. It picks
  `index.html`, `404.html` or `501.html` from a fixed table, prints a console line, and sends
  a fixed header block.

The modules follow the program's structure:

| file | module | what it holds |
|---|---|---|
| `common.dfy` | `Common` | `Option`, `Result`, and how Java renders a null string (`"null"`) |
| `text.dfy` | `Text` | the parts of `String` and `StringTokenizer` the handler uses: `indexOf`, `contains`, `trim`, case mapping, tokenising, decimal numerals |
| `http.dfy` | `Http` | the constants of `Http.java`: status texts, header prefixes, the reserved map keys |
| `files.dfy` | `Files` | the filesystem as a map from path (a sequence of name elements) to a regular file or a directory; `new File(parent, child)` and `readFile` |
| `io.dfy` | `Io` | the client socket (request lines in; printed lines and body payloads out) and the log stream, as classes whose fields the methods extend |
| `request_parser.dfy` | `RequestParser` | `parseRequestHeaders`, as a function and as the loop the source runs |
| `path_resolver.dfy` | `PathResolver` | `resolveResource`, as the loop over name elements, with the function it computes |
| `response.dfy` | `Response` | `getContentEncoding`, `getDataOutputStream`, `writeResponseHeaders` and the log format |
| `request_handler.dfy` | `RequestHandler` | the status/file decision and the whole of `run`, as a function `Serve` and as the class `HttpRequestHandler` |
| `http_server.dfy` | `LegacyServer` | `HttpServer.run`, as a function `LegacyServe` and as the class `HttpServer` |

Some behaviour of the code is modelled as written, even where it is surprising:

- Header lines share the map with the request line. A header named `Resource:` or `Method:`
  replaces the resource or method taken from the request line. Its value is trimmed but not
  case-mapped.
- A resource containing `../` always contains `./`, so only the `./` test ever decides.
- `resolveResource` appends `index.html` only when no name element survives. This is because
  `Path.startsWith("")` holds only for the empty path.
- Only unchecked exceptions end a run early. These are a missing request line, fewer than
  three tokens, and a NUL in a GET path. Nothing is then sent or logged.
- A caught `IOException` while reading the chosen file also ends the run with nothing sent or
  logged. This happens when the file is missing or is a directory.
- `Content-Length` is the length of the file before compression, even when the body is
  gzip-encoded (HttpRequestHandler.java:127,172). With gzip it is therefore not the number of
  body bytes sent.
- The legacy server prints its console line before reading the page. A failed read therefore
  still leaves the console line behind.

## Model

| member | source | states |
|---|---|---|
| Text.IndexOf | src/main/java/blog/devrandom/http/HttpRequestHandler.java:196 | -1 exactly when the character is absent; otherwise the index of its first occurrence |
| Text.Fields | src/main/java/blog/devrandom/http/HttpRequestHandler.java:189 | every token is non-empty and free of delimiters; with FieldsSkipDelimiter, FieldThenDelimiter and FieldsOfField the tokens are exactly the maximal delimiter-free runs, in order |
| Text.FieldsSkipDelimiter | src/main/java/blog/devrandom/http/HttpRequestHandler.java:189 | a delimiter in front of a string does not change its tokens |
| Text.FieldThenDelimiter | src/main/java/blog/devrandom/http/HttpRequestHandler.java:189 | a delimiter-free word followed by a delimiter is the first token, and tokenising continues after the delimiter |
| Text.FieldsOfField | src/main/java/blog/devrandom/http/HttpRequestHandler.java:189 | a non-empty delimiter-free string is its only token |
| Text.FieldsOfJoin | src/main/java/blog/devrandom/http/HttpRequestHandler.java:189-192 | tokenising words joined by a delimiter gives back exactly those words |
| Text.ToLower | src/main/java/blog/devrandom/http/HttpRequestHandler.java:191 | same length; each ASCII upper-case letter becomes the letter 32 code points above it, and every other character is kept |
| Text.ToUpper | src/main/java/blog/devrandom/http/HttpRequestHandler.java:190 | same length; each ASCII lower-case letter becomes the letter 32 code points below it, and every other character is kept |
| Text.Trim | src/main/java/blog/devrandom/http/HttpRequestHandler.java:198 | the result is a slice of the input with only characters up to U+0020 outside it, and its first and last characters are not such characters |
| Text.DecimalString | src/main/java/blog/devrandom/http/HttpRequestHandler.java:172 | the numeral of a length is a non-empty string of digits, with no leading zero except for 0 itself |
| Text.DecimalRoundTrip | src/main/java/blog/devrandom/http/HttpRequestHandler.java:172 | reading the numeral back gives the number |
| Http.StatusLineTokens | src/main/java/blog/devrandom/http/Http.java:5-8 | a one-token protocol followed by a status text tokenises to the protocol, then the numeric code |
| Http.StatusTextWords | src/main/java/blog/devrandom/http/Http.java:5-8 | each status text is a space followed by its words, and the first word is the numeric code |
| Files.Segments | src/main/java/blog/devrandom/http/HttpRequestHandler.java:244 | every name element of a path string is non-empty and slash-free |
| Files.SegmentsSteps | src/main/java/blog/devrandom/http/HttpRequestHandler.java:244 | a leading '/' is skipped, `name/rest` gives `name` then the elements of `rest`, and a bare name is its only element |
| Files.ReadFile | src/main/java/blog/devrandom/http/HttpRequestHandler.java:211-219 | the read succeeds exactly for a regular file, and yields its contents |
| RequestParser.RequestLine | src/main/java/blog/devrandom/http/HttpRequestHandler.java:188-192 | succeeds exactly when the line has at least three tokens; otherwise it fails with the token count; on success it holds exactly the three reserved keys |
| RequestParser.RequestLineFields | src/main/java/blog/devrandom/http/HttpRequestHandler.java:188-192 | method upper-cased, resource lower-cased, protocol verbatim; further words are ignored |
| RequestParser.RequestLineOfTokens | src/main/java/blog/devrandom/http/HttpRequestHandler.java:189-192 | the map is read off the first three tokens, whatever follows |
| RequestParser.JoinedTokens | src/main/java/blog/devrandom/http/HttpRequestHandler.java:189 | a request line built from words tokenises back into those words |
| RequestParser.HeaderField | src/main/java/blog/devrandom/http/HttpRequestHandler.java:196-197 | a header line contributes an entry exactly when its first ':' is past index 0 |
| RequestParser.HeaderFieldOfLine | src/main/java/blog/devrandom/http/HttpRequestHandler.java:196-198 | `name:value` stores the lower-cased name with the trimmed value |
| RequestParser.Entries | src/main/java/blog/devrandom/http/HttpRequestHandler.java:194-200 | one entry per header line of the block |
| RequestParser.Fold | src/main/java/blog/devrandom/http/HttpRequestHandler.java:194-200 | every name some header line contributes is a key of the resulting map |
| RequestParser.HeaderBlock | src/main/java/blog/devrandom/http/HttpRequestHandler.java:194-200 | the header lines are non-empty and come after the request line; lemmas HeadersFromFold and BlankLineEndsHeaders tie them to the read loop |
| RequestParser.EntryAt | src/main/java/blog/devrandom/http/HttpRequestHandler.java:195-200 | the i-th entry of the block is what the i-th header line contributes |
| RequestParser.ParseRequest | src/main/java/blog/devrandom/http/HttpRequestHandler.java:185-202 | fails exactly when there is no request line or it has fewer than three tokens; on success the three reserved keys are present |
| RequestParser.FoldKeepsKeys | src/main/java/blog/devrandom/http/HttpRequestHandler.java:195-200 | header lines only add or replace keys, never remove them |
| RequestParser.ParseRequestHeaders | src/main/java/blog/devrandom/http/HttpRequestHandler.java:185-202 | the read loop, stopping at the first empty line or the end, computes ParseRequest |
| RequestParser.ReadHeaderLines | src/main/java/blog/devrandom/http/HttpRequestHandler.java:194-200 | the header loop leaves the map holding the fold of exactly the header block's entries over the request-line map |
| RequestParser.HeadersFromFold | src/main/java/blog/devrandom/http/HttpRequestHandler.java:195-200 | reading from the line after the request line until an empty line or the end folds exactly the header block |
| RequestParser.HeadersFromPrefix | src/main/java/blog/devrandom/http/HttpRequestHandler.java:195-200 | resuming the loop partway through the block, with the earlier lines already folded, ends with the whole block's fold |
| RequestParser.FoldLastDefinition | src/main/java/blog/devrandom/http/HttpRequestHandler.java:198 | with duplicate names, the last line wins |
| RequestParser.FoldUndefined | src/main/java/blog/devrandom/http/HttpRequestHandler.java:198 | a key no header line names keeps its earlier value, or stays absent |
| RequestParser.ParsedHeader | src/main/java/blog/devrandom/http/HttpRequestHandler.java:195-200 | a parsed header's value is the trimmed value of the last line in the block that names it |
| RequestParser.RequestLineFieldKept | src/main/java/blog/devrandom/http/HttpRequestHandler.java:190-198 | a reserved key that no header line names keeps the request line's value |
| RequestParser.RequestLineKeysKept | src/main/java/blog/devrandom/http/HttpRequestHandler.java:188-200 | with no header line naming a reserved key, the parse yields the upper-cased method, lower-cased resource and verbatim protocol |
| RequestParser.BlankLineEndsHeaders | src/main/java/blog/devrandom/http/HttpRequestHandler.java:195 | lines after the first empty line never affect the parse |
| RequestParser.SingleHeader | src/main/java/blog/devrandom/http/HttpRequestHandler.java:196-198 | a single `name:value` line maps the lower-cased name to the trimmed value |
| RequestParser.ResourceHeaderOverrides | src/main/java/blog/devrandom/http/HttpRequestHandler.java:191-198 | a `Resource:` header replaces the request line's resource with its trimmed value, not lower-cased |
| RequestParser.MethodHeaderOverrides | src/main/java/blog/devrandom/http/HttpRequestHandler.java:190-198 | a `Method:` header replaces the request line's method with its trimmed value, not upper-cased |
| PathResolver.ResolveResource | src/main/java/blog/devrandom/http/HttpRequestHandler.java:242-254 | fails exactly when the resource holds NUL; otherwise returns the resolved name elements joined by '/' |
| PathResolver.Kept | src/main/java/blog/devrandom/http/HttpRequestHandler.java:245-249 | never longer than the request's elements; KeptMembers, KeptAppend and KeptEmpty characterise it |
| PathResolver.ResolvedNames | src/main/java/blog/devrandom/http/HttpRequestHandler.java:245-252 | never empty; IndexFallback and ResolvedClean characterise it |
| PathResolver.KeptMembers | src/main/java/blog/devrandom/http/HttpRequestHandler.java:245-249 | an element is kept exactly when it occurs in the request and is not "." or ".." |
| PathResolver.KeptAppend | src/main/java/blog/devrandom/http/HttpRequestHandler.java:245-249 | filtering distributes over concatenation, so kept elements keep their order |
| PathResolver.KeptEmpty | src/main/java/blog/devrandom/http/HttpRequestHandler.java:245-250 | nothing is kept exactly when every element is "." or ".." |
| PathResolver.KeptClean | src/main/java/blog/devrandom/http/HttpRequestHandler.java:245-249 | kept elements are non-empty, slash-free and never dot elements |
| PathResolver.ResolvedClean | src/main/java/blog/devrandom/http/HttpRequestHandler.java:242-254 | the resolved path is non-empty and every element is an ordinary name |
| PathResolver.IndexFallback | src/main/java/blog/devrandom/http/HttpRequestHandler.java:250-252 | index.html is the result exactly when no ordinary element is requested; otherwise the kept elements are |
| PathResolver.ResolvedRoundTrip | src/main/java/blog/devrandom/http/HttpRequestHandler.java:98-99 | the resolved string, read back as a path below the web root, has exactly the resolved elements |
| Response.ContentEncoding | src/main/java/blog/devrandom/http/HttpRequestHandler.java:273-276 | "gzip" exactly when the accept-encoding header contains "gzip", otherwise null |
| Response.BodyEncoding | src/main/java/blog/devrandom/http/HttpRequestHandler.java:264-271 | the body stream compresses exactly when the accept-encoding header contains "gzip" |
| Response.EncodingAgrees | src/main/java/blog/devrandom/http/HttpRequestHandler.java:127-130 | Content-Encoding is announced exactly when the body stream compresses |
| Response.ResponseHeaderLines | src/main/java/blog/devrandom/http/HttpRequestHandler.java:164-176 | seven lines, plus one when an encoding is chosen, starting with the status line and ending with the empty line |
| Response.WriteResponseHeaders | src/main/java/blog/devrandom/http/HttpRequestHandler.java:164-176 | appends exactly the header block to the client's printed lines and leaves the body untouched |
| Response.HeaderBlockTerminated | src/main/java/blog/devrandom/http/HttpRequestHandler.java:166-174 | the block ends with an empty line, and that is its only empty line |
| Response.StatusLineReadsBack | src/main/java/blog/devrandom/http/HttpRequestHandler.java:166 | a client tokenising the first line reads the protocol, then the numeric code |
| Response.ContentEncodingAnnounced | src/main/java/blog/devrandom/http/HttpRequestHandler.java:169-170 | a Content-Encoding line appears after the status line exactly when an encoding was chosen, and then it is the fourth line and carries that encoding |
| Response.ContentLengthReadsBack | src/main/java/blog/devrandom/http/HttpRequestHandler.java:172 | the Content-Length line's digits read back as the length handed in |
| Response.AccessLogLine | src/main/java/blog/devrandom/http/HttpRequestHandler.java:231-234 | the entry starts with the client's address and ends with a newline |
| Response.AccessLogOneLine | src/main/java/blog/devrandom/http/HttpRequestHandler.java:231-234 | with newline-free fields, the log entry is one line ending in its only newline |
| RequestHandler.Decide | src/main/java/blog/devrandom/http/HttpRequestHandler.java:94-118 | no target exactly for a GET without traversal whose resource holds NUL; a 200 target exists on disk; the lemmas below give the whole table |
| RequestHandler.DotDotSubsumed | src/main/java/blog/devrandom/http/HttpRequestHandler.java:94 | a resource holding "../" holds "./", so the traversal test is exactly "contains ./" |
| RequestHandler.TraversalIsBadRequest | src/main/java/blog/devrandom/http/HttpRequestHandler.java:94-96 | a resource holding "./" gets 400 and the server root's 400 page, whatever the method |
| RequestHandler.OtherMethodNotImplemented | src/main/java/blog/devrandom/http/HttpRequestHandler.java:115-118 | any other method, without traversal, gets 501 and the 501 page |
| RequestHandler.GetOutcome | src/main/java/blog/devrandom/http/HttpRequestHandler.java:97-114 | a GET looks up the resolved path below the web root: missing gives 404, a regular file gives 200, a directory gives 200 with its index.html or 404 without one |
| RequestHandler.NulAborts | src/main/java/blog/devrandom/http/HttpRequestHandler.java:97-98 | the decision aborts exactly for a GET without traversal whose resource holds NUL |
| RequestHandler.OkIsConfined | src/main/java/blog/devrandom/http/HttpRequestHandler.java:94-114 | a file served with 200 exists, lies strictly below the web root, and is reached through ordinary names only |
| RequestHandler.Serve | src/main/java/blog/devrandom/http/HttpRequestHandler.java:77-151 | a missing or short request line aborts the run; a served response ends with its empty header line; ServeFailures and ServedResponse characterise it |
| RequestHandler.ServeFailures | src/main/java/blog/devrandom/http/HttpRequestHandler.java:84-141 | a run aborts exactly on a bad request line or a NUL in a GET path; it hits an IOException exactly when the chosen file cannot be read |
| RequestHandler.ServedResponse | src/main/java/blog/devrandom/http/HttpRequestHandler.java:120-136 | a served response has the request's protocol and the decided status, the whole decided file as body, a Content-Length equal to the uncompressed length, and a Content-Encoding line exactly when the body is gzipped |
| RequestHandler.TraversalAnswered | src/main/java/blog/devrandom/http/HttpRequestHandler.java:94-96 | a traversal request is answered "400 Bad Request" with the 400 page, provided that page is readable |
| RequestHandler.ClientReadsStatus | src/test/java/blog/devrandom/http/HttpRequestHandlerTest.java:44-55 | a client tokenising the response to `<verb> <resource> <protocol>` reads the protocol, then the code decided for the upper-cased verb and lower-cased resource |
| RequestHandler.HttpRequestHandler.constructor | src/main/java/blog/devrandom/http/HttpRequestHandler.java:65-71 | the handler keeps its client, configuration and logger |
| RequestHandler.HttpRequestHandler.DecideTarget | src/main/java/blog/devrandom/http/HttpRequestHandler.java:94-118 | the branches of run settle on the status and file of the decision function |
| RequestHandler.HttpRequestHandler.Run | src/main/java/blog/devrandom/http/HttpRequestHandler.java:77-151 | a served run appends the header block and one body to the client and one line to the log; any other outcome changes neither |
| LegacyServer.LegacyTable | src/main/java/blog/devrandom/http/HttpServer.java:46-57 | 200 exactly for a GET ending in "/", 404 exactly for any other GET, 501 exactly for any other method, each with its own page |
| LegacyServer.LegacyDecide | src/main/java/blog/devrandom/http/HttpServer.java:46-57 | the table never answers 400, and any method but GET gets 501; LegacyTable reads the whole table both ways |
| LegacyServer.ConsoleLine | src/main/java/blog/devrandom/http/HttpServer.java:62 | the console line starts with the method and ends with a newline |
| LegacyServer.LegacyHeaderLines | src/main/java/blog/devrandom/http/HttpServer.java:66-71 | six lines, the status line first and the empty line last |
| LegacyServer.LegacyServe | src/main/java/blog/devrandom/http/HttpServer.java:32-80 | the run aborts exactly when there is no request line or it has fewer than three tokens |
| LegacyServer.StatusIgnoresDisk | src/main/java/blog/devrandom/http/HttpServer.java:46-62 | the outcome's status and console line do not depend on the files on disk |
| LegacyServer.LegacyFraming | src/main/java/blog/devrandom/http/HttpServer.java:66-71 | six lines, only the last empty, no Connection or Content-Encoding line, and Content-Length reads back as the body length |
| LegacyServer.LegacyClientReadsStatus | src/test/java/blog/devrandom/http/HttpServerTest.java:38-85 | the console line is printed for every well-formed request, and a client reads the protocol, then the table's code |
| LegacyServer.HttpServer.constructor | src/main/java/blog/devrandom/http/HttpServer.java:27-29 | the server keeps its socket |
| LegacyServer.HttpServer.DecideFile | src/main/java/blog/devrandom/http/HttpServer.java:46-57 | the branches of run settle on the status and page of the fixed table |
| LegacyServer.HttpServer.Run | src/main/java/blog/devrandom/http/HttpServer.java:32-80 | the console line is printed unless the request line is bad; a failed page read adds the exception's message to the console (HttpServer.java:77-78) and sends nothing; a readable page appends the header block and the body |

## Left out

- Sockets and streams are abstracted. The request arrives as a sequence of lines, and
  `Socket` records printed lines and body payloads. Flushing, closing, `GZIPOutputStream.finish`
  and write failures after the headers are not modelled.
- Gzip compression itself is not modelled. A body is recorded with the encoding of the stream
  it went through, because compression is a library algorithm outside the server.
- The clock and the date format are not modelled. The formatted date is a parameter, because
  it comes from the system clock.
- `Files.probeContentType` is a table from path to type. An absent entry means null. The
  `IOException` it can throw is not modelled, because it depends on the platform's type
  detectors.
- `Files.ReadFile`: returns the whole file. The `(int) file.length()` truncation for files
  over 2 GiB and a short `read` are not modelled, because the filesystem is abstract.
- `Text.ToLower`: maps only the ASCII letters. Java's locale-sensitive Unicode case mapping is
  not modelled.
- `Text.ToUpper`: maps only the ASCII letters, for the same reason.
- Paths are sequences of name elements. The difference between absolute and relative paths,
  symbolic links, and platform path rules other than NUL rejection are not modelled.
- The legacy server's pages sit under `new File(".")`. They are modelled as paths relative to
  the working directory.
- Configuration loading from `Properties` is replaced by `Config`. An unset web root is the
  empty path. A null server root, which makes the constructor throw, is not modelled.
- Exception messages that `HttpRequestHandler`'s `catch` blocks print to standard output are
  not modelled. They go neither to the client nor to the access log.
- LegacyServer.HttpServer.Run: the message printed when reading the page fails is modelled, as
  the `ioMessage` parameter. Messages of other I/O failures (accepting, reading the request,
  writing the response) are not, because those failures are outside the modelled streams.
- `HttpServer.main`, the accept loop and the thread per connection are not modelled, because
  they are concurrency and process setup around one run.
- With gzip, `Content-Length` still gives the uncompressed file length
  (HttpRequestHandler.java:127,172), which is not the number of body bytes sent (section 8.6
  of RFC 9110 defines it as the length of the content as encoded). `RequestHandler.ServedResponse`
  states what the code sends.
