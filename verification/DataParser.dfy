/** The client-side framer, and the printer's loop. */
module DataParser {
  import opened Text
  import opened Resp

  /** parseNextCommand: the loop over the declared bulk strings computes NextCommand. */
  method ParseNextCommand(buf: string) returns (r: Option<Parsed>)
    ensures r == NextCommand(buf)
  {
    if buf == "" || buf[0] != '*' { return None; }
    var endOfFirstLine := IndexOfCRLF(buf, 0);
    if endOfFirstLine == -1 { return None; }
    var arrayLength := ParseInt(buf[1..endOfFirstLine]);
    if arrayLength == None { return None; }

    var currentIndex := endOfFirstLine + 2;
    var i := 0;
    while i < arrayLength.value
      invariant currentIndex <= |buf|
      invariant BulksEnd(buf, currentIndex, arrayLength.value - i) == FrameEnd(buf)
    {
      if currentIndex < 0 || currentIndex >= |buf| || buf[currentIndex] != '$' { return None; }
      var endOfBulkStringHeader := IndexOfCRLF(buf, currentIndex);
      if endOfBulkStringHeader == -1 { return None; }
      var bulkStringLength := ParseInt(buf[currentIndex + 1..endOfBulkStringHeader]);
      if bulkStringLength == None { return None; }
      var endOfBulkString := endOfBulkStringHeader + 2 + bulkStringLength.value + 2;
      if |buf| < endOfBulkString { return None; }
      currentIndex := endOfBulkString;
      i := i + 1;
    }

    r := Some(Parsed(PayloadOf(SliceTo(buf, currentIndex)), currentIndex));
  }

  /** toRESPArray: appending the parts one by one prints ToRESP. */
  method ToRESPArray(commandParts: seq<string>) returns (resp: string)
    ensures resp == ToRESP(commandParts)
  {
    resp := Header('*', |commandParts|) + CRLF;
    for i := 0 to |commandParts|
      invariant resp + Bulks(commandParts[i..]) == ToRESP(commandParts)
    {
      assert commandParts[i..][0] == commandParts[i] && commandParts[i..][1..] == commandParts[i + 1..];
      resp := resp + Bulk(commandParts[i]);
    }
  }
}
