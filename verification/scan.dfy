/**
 One page step of a cluster node scan (doScan of the cursor scan returns).
 The cursor is bound to one node's client; each step sends SCAN with the
 cursor and the optional MATCH and COUNT options, and the client is dropped
 once the node answers the terminal position "0", after which every step
 answers null. The node itself is a parameter: a function from the request
 to its reply.
 */
module Scan {
  import opened ClusterTypes

  const TWO_64: nat := 0x1_0000_0000_0000_0000

  /** A Java long read as the unsigned 64-bit value toUnsignedString/parseUnsignedLong see. */
  type U64 = n: int | 0 <= n < TWO_64

  /** The cursor value an upstream scan cursor passes before it has started. */
  const NOT_STARTED: U64 := 101010101010101010

  datatype ClientRef = ClientRef(address: string)

  datatype ScanOptions = ScanOptions(pattern: Option<string>, count: Option<int>)

  datatype ScanArg = Text(s: string) | Number(n: int)

  /** The node's reply: its next position token, the page of keys, and the client that served it. */
  datatype ScanReply = ScanReply(pos: string, keys: seq<Key>, client: ClientRef)

  datatype ScanIteration = ScanIteration(cursor: U64, keys: seq<Key>)

  /** The node serving the bound client: its SCAN reply to each request. */
  type ScanResponder = (ClientRef, seq<ScanArg>) -> ScanReply

  // ---------------------------------------------------------------------
  // Unsigned decimal text of a cursor
  // ---------------------------------------------------------------------

  predicate IsDigit(c: char) {
    '0' <= c <= '9'
  }

  predicate AllDigits(s: string) {
    forall i :: 0 <= i < |s| ==> IsDigit(s[i])
  }

  function DigitChar(d: nat): char
    requires d < 10
  {
    ('0' as int + d) as char
  }

  /** Long.toUnsignedString: the decimal digits of `n`, without sign or leading zeros. */
  function DecimalString(n: nat): string
    decreases n
  {
    if n < 10 then [DigitChar(n)] else DecimalString(n / 10) + [DigitChar(n % 10)]
  }

  /** The number a string of decimal digits denotes. */
  function DigitsValue(s: string): nat
    requires AllDigits(s)
    decreases |s|
  {
    if |s| == 0 then 0
    else DigitsValue(s[..|s| - 1]) * 10 + (s[|s| - 1] as int - '0' as int)
  }

  /**
   Long.parseUnsignedLong on ASCII text: an optional '+', at least one digit
   '0'..'9', and a value below 2^64. Other Unicode decimal digits, which the
   Java parser also accepts, are read as malformed.
   */
  function ParseUnsignedLong(s: string): Option<U64> {
    var digits := if |s| > 0 && s[0] == '+' then s[1..] else s;
    if |digits| == 0 || !AllDigits(digits) then None
    else
      var v := DigitsValue(digits);
      if v < TWO_64 then Some(v) else None
  }

  /** The decimal text of a number is a non-empty digit string that reads back as the number. */
  lemma {:induction false} DecimalStringDigits(n: nat)
    ensures |DecimalString(n)| > 0
    ensures AllDigits(DecimalString(n))
    ensures DigitsValue(DecimalString(n)) == n
    decreases n
  {
    if n >= 10 {
      DecimalStringDigits(n / 10);
      var s := DecimalString(n);
      assert s[..|s| - 1] == DecimalString(n / 10);
    }
  }

  /** The text the step sends parses back to the very cursor: format and parse are inverse. */
  lemma CursorTextRoundTrip(n: U64)
    ensures ParseUnsignedLong(DecimalString(n)) == Some(n)
  {
    DecimalStringDigits(n);
  }

  /** The decimal text is "0" exactly for the cursor 0, the start and end of an iteration. */
  lemma ZeroText(n: nat)
    ensures DecimalString(n) == "0" <==> n == 0
  {
  }

  // ---------------------------------------------------------------------
  // doScan
  // ---------------------------------------------------------------------

  /** The cursor actually sent: the not-started value stands for 0. */
  function StartCursor(cursorId: U64): U64 {
    if cursorId == NOT_STARTED then 0 else cursorId
  }

  /** The SCAN arguments: the cursor text, then MATCH with the pattern, then COUNT with the count. */
  function ScanArgs(cursorId: U64, options: ScanOptions): (args: seq<ScanArg>)
    ensures |args| == 1 + (if options.pattern.Some? then 2 else 0) + (if options.count.Some? then 2 else 0)
    ensures args[0] == Text(DecimalString(StartCursor(cursorId)))
    ensures options.pattern.Some? ==> args[1] == Text("MATCH") && args[2] == Text(options.pattern.value)
    ensures options.count.Some? ==>
      args[|args| - 2] == Text("COUNT") && args[|args| - 1] == Number(options.count.value)
  {
    [Text(DecimalString(StartCursor(cursorId)))]
    + (if options.pattern.Some? then [Text("MATCH"), Text(options.pattern.value)] else [])
    + (if options.count.Some? then [Text("COUNT"), Number(options.count.value)] else [])
  }

  /**
   One step. Returns the page (null once the client is dropped) or the
   exception, together with the client bound for the next step.
   */
  function DoScan(mode: Mode, client: Option<ClientRef>, cursorId: U64, options: ScanOptions, responder: ScanResponder)
    : (r: (Result<Option<ScanIteration>>, Option<ClientRef>))
    ensures mode.Deferred() ==> r == (Failure(ScanInPipeline), client)
    ensures !mode.Deferred() && client.None? ==> r == (Success(None), None)
    ensures !mode.Deferred() && client.Some? ==>
      var reply := responder(client.value, ScanArgs(cursorId, options));
      && (r.1.None? <==> reply.pos == "0")
      && (r.1.Some? ==> r.1.value == reply.client)
      && (r.0.Success? <==> ParseUnsignedLong(reply.pos).Some?)
      && (r.0.Failure? ==> r.0.error == InvalidCursor)
      && (r.0.Success? ==> r.0.value == Some(ScanIteration(ParseUnsignedLong(reply.pos).value, reply.keys)))
      && (reply.pos == "0" ==> r.0 == Success(Some(ScanIteration(0, reply.keys))))
  {
    if mode.Deferred() then (Failure(ScanInPipeline), client)
    else if client.None? then (Success(None), None)
    else
      var reply := responder(client.value, ScanArgs(cursorId, options));
      var next := if reply.pos == "0" then None else Some(reply.client);
      CursorTextRoundTrip(0);
      match ParseUnsignedLong(reply.pos)
      case None => (Failure(InvalidCursor), next)
      case Some(pos) => (Success(Some(ScanIteration(pos, reply.keys))), next)
  }

  /** Starting from the not-started cursor is starting from cursor 0. */
  lemma NotStartedIsZero(mode: Mode, client: Option<ClientRef>, options: ScanOptions, responder: ScanResponder)
    ensures DoScan(mode, client, NOT_STARTED, options, responder) == DoScan(mode, client, 0, options, responder)
  {
  }

  /** The answers of successive steps, each sent with the given cursor and the client the previous step left bound. */
  function Steps(mode: Mode, client: Option<ClientRef>, cursors: seq<U64>, options: ScanOptions, responder: ScanResponder)
    : (pages: seq<Result<Option<ScanIteration>>>)
    ensures |pages| == |cursors|
    decreases |cursors|
  {
    if |cursors| == 0 then []
    else
      var (page, next) := DoScan(mode, client, cursors[0], options, responder);
      [page] + Steps(mode, next, cursors[1..], options, responder)
  }

  /** Once the node has answered "0", every later step answers null without sending anything. */
  lemma {:induction false} FinishedScanStaysFinished(
    mode: Mode, client: ClientRef, cursorId: U64, later: seq<U64>, options: ScanOptions, responder: ScanResponder)
    requires !mode.Deferred()
    requires responder(client, ScanArgs(cursorId, options)).pos == "0"
    ensures DoScan(mode, Some(client), cursorId, options, responder).1 == None
    ensures forall i :: 0 <= i < |later| ==>
      Steps(mode, DoScan(mode, Some(client), cursorId, options, responder).1, later, options, responder)[i] == Success(None)
  {
    StepsAfterDrop(mode, later, options, responder);
  }

  /** With no client bound, a run of steps answers null at every step. */
  lemma {:induction false} StepsAfterDrop(mode: Mode, cursors: seq<U64>, options: ScanOptions, responder: ScanResponder)
    requires !mode.Deferred()
    ensures forall i :: 0 <= i < |cursors| ==> Steps(mode, None, cursors, options, responder)[i] == Success(None)
    decreases |cursors|
  {
    if |cursors| > 0 {
      StepsAfterDrop(mode, cursors[1..], options, responder);
    }
  }
}
