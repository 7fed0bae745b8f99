// The two line-counting servers of task 2: handle_client of the threaded
// server and of the asyncio server, each with the statistics it keeps.
// One call handles one connection; the socket is reduced to what recv/read
// returned and whether sending the response succeeded.

module CountServers {
  import opened Common
  import opened LineCount

  /** What recv(BUFFER_SIZE) / read(BUFFER_SIZE) returned: the decoded text
      (empty when the client sent nothing), or bytes on which decode()
      raises. */
  datatype Payload = Text(text: string) | Undecodable

  const ThreadedUnknownText := "Неизвестная команда"
  const AsyncUnknownText := "Неизвестная команда. Используйте: COUNT_ALL или COUNT_FILE <имя_файла>"
  const ErrorPrefix := "ОШИБКА: "

  /** The response the threaded handler builds, or None when it returns
      (nothing received) or raises (undecodable bytes) before building one. */
  function ThreadedResponse(data: Payload, dir: Dir, listing: seq<string>): (r: Option<string>)
    ensures r.None? <==> data.Undecodable? || data.text == []
  {
    match data
    case Undecodable => None
    case Text(t) =>
      if t == [] then None
      else Some(CommandResponse(ParseCommand(Strip(t)), dir, listing, ThreadedUnknownText))
  }

  class ThreadedSocketServer {
    var requestsProcessed: int
    var activeConnections: int

    constructor ()
      ensures requestsProcessed == 0 && activeConnections == 0
    {
      requestsProcessed := 0;
      activeConnections := 0;
    }

    /** handle_client: the connection is counted as active while it is
        handled; a request counts as processed once its response has been
        sent. */
    method HandleClient(data: Payload, dir: Dir, listing: seq<string>, sendOk: bool) returns (sent: Option<string>)
      modifies this
      ensures sent == (if sendOk then ThreadedResponse(data, dir, listing) else None)
      ensures activeConnections == old(activeConnections)
      ensures requestsProcessed == old(requestsProcessed) + (if sent.Some? then 1 else 0)
    {
      activeConnections := activeConnections + 1;
      sent := None;
      match data {
        case Undecodable =>
        case Text(t) =>
          if t != [] {
            var response := Respond(ParseCommand(Strip(t)), dir, listing, ThreadedUnknownText);
            if sendOk {
              sent := Some(response);
              requestsProcessed := requestsProcessed + 1;
            }
          }
      }
      activeConnections := activeConnections - 1;
    }
  }

  function ErrorText(errorText: string): string { ErrorPrefix + errorText }

  /** What the asyncio handler writes to the client.  errorText is
      str(e) of the exception raised, by decode() or by the write. */
  function AsyncWrites(data: Payload, dir: Dir, listing: seq<string>, writeOk: bool, errorText: string): (w: seq<string>)
    ensures 1 <= |w| <= 2
    ensures |w| == 2 <==> data.Text? && !writeOk
    ensures data.Undecodable? ==> w == [ErrorText(errorText)]
    ensures data.Text? ==> w[0] == CommandResponse(ParseCommand(Strip(data.text)), dir, listing, AsyncUnknownText)
    ensures data.Text? && !writeOk ==> w[1] == ErrorText(errorText)
  {
    match data
    case Undecodable => [ErrorText(errorText)]
    case Text(t) =>
      var response := CommandResponse(ParseCommand(Strip(t)), dir, listing, AsyncUnknownText);
      if writeOk then [response] else [response, ErrorText(errorText)]
  }

  class AsyncSocketServer {
    var requestsProcessed: int

    constructor ()
      ensures requestsProcessed == 0
    {
      requestsProcessed := 0;
    }

    /** handle_client: the response is written, or on an exception an
        "ОШИБКА: ..." line; only a request answered without an exception
        counts as processed. */
    method HandleClient(data: Payload, dir: Dir, listing: seq<string>, writeOk: bool, errorText: string)
      returns (written: seq<string>)
      modifies this
      ensures written == AsyncWrites(data, dir, listing, writeOk, errorText)
      ensures requestsProcessed == old(requestsProcessed) + (if data.Text? && writeOk then 1 else 0)
    {
      match data {
        case Undecodable =>
          written := [ErrorText(errorText)];
        case Text(t) =>
          var response := Respond(ParseCommand(Strip(t)), dir, listing, AsyncUnknownText);
          if writeOk {
            written := [response];
            requestsProcessed := requestsProcessed + 1;
          } else {
            written := [response, ErrorText(errorText)];
          }
      }
    }
  }

  /** On a non-empty request that names a command both servers send the
      same text. */
  lemma ServersAgreeOnCommands(t: string, dir: Dir, listing: seq<string>, errorText: string)
    requires t != [] && ParseCommand(Strip(t)) != Unknown
    ensures ThreadedResponse(Text(t), dir, listing) == Some(AsyncWrites(Text(t), dir, listing, true, errorText)[0])
  {
  }

  /** The servers part on anything else: an empty request gets no answer
      from the threaded server and the usage text from the asyncio one, and
      the two unknown-command texts differ. */
  lemma ServersDifferOnUnknown(t: string, dir: Dir, listing: seq<string>, errorText: string)
    requires ParseCommand(Strip(t)) == Unknown
    ensures AsyncWrites(Text(t), dir, listing, true, errorText) == [AsyncUnknownText]
    ensures t == [] ==> ThreadedResponse(Text(t), dir, listing).None?
    ensures t != [] ==> ThreadedResponse(Text(t), dir, listing) == Some(ThreadedUnknownText)
    ensures ThreadedUnknownText != AsyncUnknownText
  {
    assert |ThreadedUnknownText| != |AsyncUnknownText|;
  }

  /** Every failure the asyncio server reports starts with "ОШИБКА: " and
      carries the exception text. */
  lemma AsyncErrorsArePrefixed(data: Payload, dir: Dir, listing: seq<string>, writeOk: bool, errorText: string)
    requires data.Undecodable? || !writeOk
    ensures var w := AsyncWrites(data, dir, listing, writeOk, errorText);
      StartsWith(w[|w| - 1], ErrorPrefix) && w[|w| - 1][|ErrorPrefix|..] == errorText
  {
  }

  /** An error text never looks like a counting answer, so a client can
      tell the two apart. */
  lemma ErrorTextIsNotAnAnswer(errorText: string, cmd: Command, dir: Dir, listing: seq<string>)
    requires cmd != Unknown
    ensures ErrorText(errorText) != CommandResponse(cmd, dir, listing, AsyncUnknownText)
  {
    var e := ErrorText(errorText);
    assert e[0] == 'О';
    match cmd {
      case CountAll =>
        assert CommandResponse(cmd, dir, listing, AsyncUnknownText)[0] == 'Ф';
      case CountFile(name) =>
        var r := CommandResponse(cmd, dir, listing, AsyncUnknownText);
        assert r[0] == 'С' || r[0] == 'Ф';
    }
  }
}
