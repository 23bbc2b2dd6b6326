/** The streams a connection writes to: the client socket and a line-oriented log. */
module Io {
  import opened Files

  /** How the body stream encodes what it is given: BufferedOutputStream or GZIPOutputStream. */
  datatype Encoding = Identity | Gzipped

  /** The bytes handed to the body stream, with the stream's encoding. */
  datatype Payload = Payload(encoding: Encoding, data: seq<byte>)

  /** An accepted connection: the request as lines, the peer address, and what was sent back. */
  class Socket {
    const requestLines: seq<string>
    const hostAddress: string
    /** Lines printed through the PrintWriter (println), in order. */
    var headerLines: seq<string>
    /** Bodies written through the data stream, in order. */
    var payloads: seq<Payload>

    constructor(requestLines: seq<string>, hostAddress: string)
      ensures this.requestLines == requestLines && this.hostAddress == hostAddress
      ensures headerLines == [] && payloads == []
    {
      this.requestLines := requestLines;
      this.hostAddress := hostAddress;
      headerLines := [];
      payloads := [];
    }

    /** PrintWriter.println. */
    method PrintLine(line: string)
      modifies this
      ensures headerLines == old(headerLines) + [line]
      ensures payloads == old(payloads)
    {
      headerLines := headerLines + [line];
    }

    /** One write of a whole byte array to the body stream. */
    method WriteBody(p: Payload)
      modifies this
      ensures payloads == old(payloads) + [p]
      ensures headerLines == old(headerLines)
    {
      payloads := payloads + [p];
    }
  }

  /** A PrintStream used for logging: each printf contributes one string. */
  class LogStream {
    var entries: seq<string>

    constructor()
      ensures entries == []
    {
      entries := [];
    }

    method Print(s: string)
      modifies this
      ensures entries == old(entries) + [s]
    {
      entries := entries + [s];
    }
  }

  // Regrouping lines printed one at a time into the block they form.

  lemma AppendThree<T>(m: seq<T>, a: T, b: T, c: T)
    ensures m + [a] + [b] + [c] == m + [a, b, c]
  {
  }

  lemma AppendFour<T>(m: seq<T>, a: T, b: T, c: T, d: T)
    ensures m + [a] + [b] + [c] + [d] == m + [a, b, c, d]
  {
  }

  lemma AppendAssoc<T>(w: seq<T>, x: seq<T>, y: seq<T>, z: seq<T>)
    ensures w + x + y + z == w + (x + y + z)
  {
  }

  lemma AppendAssoc3<T>(w: seq<T>, x: seq<T>, y: seq<T>)
    ensures w + x + y == w + (x + y)
  {
  }
}
