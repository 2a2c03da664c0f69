/** The Content-Length framing of the MCP bridge (Language Server Protocol 3.17, "Base
    Protocol", "Header Part"): its writer, and its reader over a pipe that may return fewer
    bytes than asked for. JSON is left to two functions, and header text is ASCII. */
module McpFraming {
  import opened Octets
  import opened Optional

  const CR: Byte := 13
  const LF: Byte := 10
  const SPACE: Byte := 32
  const UNDERSCORE: Byte := 95

  /** "Content-Length:" and its lower-case form. */
  const NAME: Bytes := [67, 111, 110, 116, 101, 110, 116, 45, 76, 101, 110, 103, 116, 104, 58]
  const LOWER_NAME: Bytes := [99, 111, 110, 116, 101, 110, 116, 45, 108, 101, 110, 103, 116, 104, 58]

  /** What `json.loads` makes of a body, as far as the bridge looks at it. */
  datatype Message = Malformed | Notification | Response(id: int, failed: bool)

  // ---- the writer -----------------------------------------------------------------------------

  function Decimal(n: nat): (s: Bytes)
    ensures |s| >= 1 && forall k :: 0 <= k < |s| ==> IsDigit(s[k])
  {
    if n < 10 then [48 + n] else Decimal(n / 10) + [48 + n % 10]
  }

  predicate IsDigit(b: Byte) {
    48 <= b <= 57
  }

  function Header(n: nat): Bytes {
    NAME + [SPACE] + Decimal(n) + [CR, LF, CR, LF]
  }

  function Frame(body: Bytes): Bytes {
    Header(|body|) + body
  }

  function Frames(bodies: seq<Bytes>): Bytes {
    if bodies == [] then [] else Frame(bodies[0]) + Frames(bodies[1..])
  }

  // ---- the header parser ----------------------------------------------------------------------

  predicate IsBlank(b: Byte) {
    9 <= b <= 13 || 28 <= b <= 32
  }

  function StripLeft(s: Bytes): Bytes {
    if s != [] && IsBlank(s[0]) then StripLeft(s[1..]) else s
  }

  function StripRight(s: Bytes): Bytes {
    if s != [] && IsBlank(s[|s| - 1]) then StripRight(s[..|s| - 1]) else s
  }

  function Strip(s: Bytes): Bytes {
    StripRight(StripLeft(s))
  }

  /** Where the first CR LF is, or the length. */
  function FirstBreak(s: Bytes): (k: nat)
    ensures k <= |s| && (k < |s| ==> k + 1 < |s| && s[k] == CR && s[k + 1] == LF)
  {
    if |s| < 2 then |s|
    else if s[0] == CR && s[1] == LF then 0
    else 1 + FirstBreak(s[1..])
  }

  function Lower(b: Byte): Byte {
    if 65 <= b <= 90 then b + 32 else b
  }

  predicate NamesLength(line: Bytes) {
    |line| >= |LOWER_NAME| && forall k :: 0 <= k < |LOWER_NAME| ==> Lower(line[k]) == LOWER_NAME[k]
  }

  /** Digits, single underscores between them. */
  function Numeral(s: Bytes): Option<nat>
    decreases |s|
  {
    if s == [] || !IsDigit(s[|s| - 1]) then None
    else
      var front := s[..|s| - 1];
      var digit: nat := s[|s| - 1] - 48;
      if front == [] then Some(digit)
      else
        var high: Option<nat> := Numeral(if front[|front| - 1] == UNDERSCORE then front[..|front| - 1] else front);
        if high.None? then None
        else
          var value: nat := high.value;
          Some(value * 10 + digit)
  }

  function Signed(negative: bool, n: Option<nat>): Option<int> {
    match n
    case None => None
    case Some(value) => Some(if negative then -(value as int) else value)
  }

  /** `int(text)`. */
  function ToInt(s: Bytes): Option<int> {
    var t := Strip(s);
    if t != [] && (t[0] == 43 || t[0] == 45) then
      Signed(t[0] == 45, Numeral(t[1..]))
    else
      Signed(false, Numeral(t))
  }

  /** The first line that names the length decides. */
  function LengthIn(text: Bytes): Option<int>
    decreases |text|
  {
    var k := FirstBreak(text);
    if NamesLength(text[..k]) then ToInt(text[|LOWER_NAME|..k])
    else if k < |text| then LengthIn(text[k + 2..])
    else None
  }

  function ParseHeader(header: Bytes): Option<int> {
    LengthIn(Strip(header))
  }

  predicate EndsHeader(s: Bytes) {
    var n := |s|;
    && n >= 2 && s[n - 1] == LF
    && (s[n - 2] == LF || (n >= 4 && s[n - 2] == CR && s[n - 3] == LF && s[n - 4] == CR))
  }

  /** The end of the first header, scanning from k, or the end of the stream. */
  function HeaderEnd(s: Bytes, k: nat): (e: nat)
    requires k <= |s|
    ensures k <= e <= |s| && (e < |s| ==> EndsHeader(s[..e]))
    decreases |s| - k
  {
    if k == |s| || EndsHeader(s[..k]) then k else HeaderEnd(s, k + 1)
  }

  lemma OneMoreByte(s: Bytes, k: nat, byte: Bytes, rest: Bytes)
    requires k <= |s| && |byte| == 1 && s[k..] == byte + rest
    ensures k < |s| && s[..k] + byte == s[..k + 1] && rest == s[k + 1..]
  {
    assert rest == s[k..][1..] && s[k] == byte[0];
  }

  // ---- the reader -----------------------------------------------------------------------------

  datatype Outcome = Outcome(body: Option<Bytes>, rest: Bytes)

  /** One header and, if it gives a length, one body: a result, or another round. */
  datatype Turn = Stop(outcome: Outcome) | Again(rest: Bytes)

  function NextTurn(s: Bytes, parse: Bytes -> Message): (t: Turn)
    ensures t.Again? ==> |t.rest| < |s|
  {
    var e := HeaderEnd(s, 0);
    var length, rest := ParseHeader(s[..e]), s[e..];
    if !EndsHeader(s[..e]) then Stop(Outcome(None, []))
    else if length.None? then Again(rest)
    else TakeBody(length.value, rest, parse)
  }

  function TakeBody(length: int, rest: Bytes, parse: Bytes -> Message): (t: Turn)
    ensures t.Again? ==> |t.rest| <= |rest|
  {
    if length <= 0 then Stop(Outcome(None, rest))
    else if length > |rest| then Stop(Outcome(None, []))
    else
      match parse(rest[..length])
      case Malformed => Stop(Outcome(None, rest[length..]))
      case Notification => Again(rest[length..])
      case Response(_, _) => Stop(Outcome(Some(rest[..length]), rest[length..]))
  }

  /** What reading a response from a stream gives, if the deadline leaves time for it: the
      first message with an id, and where that leaves the stream. */
  function FirstResponse(s: Bytes, parse: Bytes -> Message): Outcome
    decreases |s|
  {
    match NextTurn(s, parse)
    case Stop(outcome) => outcome
    case Again(rest) => FirstResponse(rest, parse)
  }

  lemma EmptyStream(parse: Bytes -> Message)
    ensures FirstResponse([], parse) == Outcome(None, [])
  {
    assert HeaderEnd([], 0) == 0;
  }

  /** After a header without a length the search goes on, at the end of the stream in vain. */
  lemma NoLength(s: Bytes, parse: Bytes -> Message)
    requires var e := HeaderEnd(s, 0); !EndsHeader(s[..e]) || ParseHeader(s[..e]).None?
    ensures FirstResponse(s, parse) == FirstResponse(s[HeaderEnd(s, 0)..], parse)
  {
    var e := HeaderEnd(s, 0);
    if !EndsHeader(s[..e]) {
      assert s[e..] == [];
      EmptyStream(parse);
    }
  }

  lemma WithLength(s: Bytes, parse: Bytes -> Message)
    requires var e := HeaderEnd(s, 0); EndsHeader(s[..e]) && ParseHeader(s[..e]).Some?
    ensures var e := HeaderEnd(s, 0);
      match TakeBody(ParseHeader(s[..e]).value, s[e..], parse)
      case Stop(outcome) => FirstResponse(s, parse) == outcome
      case Again(rest) => FirstResponse(s, parse) == FirstResponse(rest, parse)
  {
  }

  predicate IsSuffix(s: Bytes, of: Bytes) {
    |s| <= |of| && s == of[|of| - |s|..]
  }

  class Bridge {
    const parse: Bytes -> Message
    const encode: nat -> Bytes      // the request with this id, as JSON
    var incoming: Bytes             // what the server will have sent before it closes the pipe
    var outgoing: Bytes
    var checks: nat                 // how often the clock will still read before the deadline
    var requestId: nat

    constructor (parse: Bytes -> Message, encode: nat -> Bytes, incoming: Bytes, checks: nat)
      ensures this.parse == parse && this.encode == encode && this.incoming == incoming && this.checks == checks
      ensures outgoing == [] && requestId == 0
    {
      this.parse, this.encode, this.incoming, this.checks := parse, encode, incoming, checks;
      outgoing, requestId := [], 0;
    }

    /** A read returns at least one byte, unless the stream is at its end. */
    method Read(n: nat) returns (chunk: Bytes)
      requires n > 0
      modifies this`incoming
      ensures |chunk| <= n && old(incoming) == chunk + incoming && (chunk == [] <==> old(incoming) == [])
    {
      if incoming == [] { return []; }
      var k: nat :| 1 <= k <= n && k <= |incoming|;
      chunk, incoming := incoming[..k], incoming[k..];
    }

    method BeforeDeadline() returns (yes: bool)
      modifies this`checks
      ensures yes <==> old(checks) > 0
      ensures checks == if yes then old(checks) - 1 else 0
    {
      yes := checks > 0;
      if yes { checks := checks - 1; }
    }

    /** Byte by byte up to the end of a header, of the stream, or of the time. */
    method ReadHeader() returns (line: Bytes, closed: bool)
      modifies this`incoming, this`checks
      ensures checks <= old(checks) && IsSuffix(incoming, old(incoming))
      ensures old(incoming) == [] ==> line == []
      ensures old(checks) >= |old(incoming)| + 1 ==>
        var s := old(incoming);
        var e := HeaderEnd(s, 0);
        line == s[..e] && incoming == s[e..] && checks + e + 1 >= old(checks) && (closed <==> !EndsHeader(line))
    {
      line := [];
      ghost var s, budget, k := incoming, checks, 0;
      while true
        invariant k <= |s| && line == s[..k] && incoming == s[k..] && checks + k == budget
        invariant !EndsHeader(s[..k]) && HeaderEnd(s, 0) == HeaderEnd(s, k)
        decreases checks
      {
        var inTime := BeforeDeadline();
        if !inTime { return line, false; }
        var byte := Read(1);
        if byte == [] { return line, true; }
        OneMoreByte(s, k, byte, incoming);
        line := line + byte;
        k := k + 1;
        if EndsHeader(line) { return line, false; }
      }
    }

    /** `_read_content_length`: with time for it, one header is read off the stream. */
    method ReadContentLength() returns (length: Option<int>)
      modifies this`incoming, this`checks
      ensures checks <= old(checks) && IsSuffix(incoming, old(incoming))
      ensures old(incoming) == [] ==> length == None
      ensures old(checks) >= |old(incoming)| + 1 ==>
        var s := old(incoming);
        var e := HeaderEnd(s, 0);
        && incoming == s[e..] && checks + e + 1 >= old(checks)
        && length == if EndsHeader(s[..e]) then ParseHeader(s[..e]) else None
    {
      var line, closed := ReadHeader();
      if closed || line == [] { return None; }
      length := ParseHeader(line);
    }

    /** `_read_body`: short reads are put together again. */
    method ReadBody(length: int) returns (body: Option<Bytes>)
      modifies this`incoming, this`checks
      ensures checks <= old(checks) && IsSuffix(incoming, old(incoming))
      ensures length <= 0 ==> body == Some([]) && incoming == old(incoming) && checks == old(checks)
      ensures length > 0 && body.Some? ==> |body.value| == length && old(incoming) == body.value + incoming
      ensures length > 0 && old(checks) >= |old(incoming)| + 1 ==>
        (body.Some? <==> length <= |old(incoming)|) && (body.None? ==> incoming == []) && checks + (|old(incoming)| - |incoming|) + 1 >= old(checks)
    {
      var remaining := length;
      var read: Bytes := [];
      ghost var s, budget := incoming, checks;
      while remaining > 0
        invariant s == read + incoming && budget - |read| <= checks <= budget
        invariant length > 0 ==> remaining >= 0 && remaining == length - |read|
        invariant length <= 0 ==> remaining == length && read == [] && checks == budget
        decreases checks, remaining
      {
        var inTime := BeforeDeadline();
        if !inTime { break; }
        var chunk := Read(remaining);
        if chunk == [] { return None; }
        read := read + chunk;
        remaining := remaining - |chunk|;
      }
      if remaining > 0 { return None; }
      return Some(read);
    }

    /** A body of the length that the header gave, and what it is. */
    method ReadMessage(length: int) returns (body: Option<Bytes>, again: bool)
      modifies this`incoming, this`checks
      ensures checks <= old(checks) && IsSuffix(incoming, old(incoming))
      ensures body.Some? ==> !again && parse(body.value).Response?
      ensures old(checks) >= |old(incoming)| + 1 ==>
        && TakeBody(length, old(incoming), parse) == (if again then Again(incoming) else Stop(Outcome(body, incoming)))
        && (again ==> checks + (|old(incoming)| - |incoming|) + 1 >= old(checks) && incoming != old(incoming))
    {
      var read := ReadBody(length);
      if read.None? || read.value == [] { return None, false; }
      match parse(read.value)
      case Malformed => return None, false;
      case Notification => return None, true;
      case Response(_, _) => return read, false;
    }

    /** One round of `_read_response`. */
    method ReadTurn() returns (body: Option<Bytes>, again: bool)
      modifies this`incoming, this`checks
      ensures checks <= old(checks) && IsSuffix(incoming, old(incoming))
      ensures body.Some? ==> !again && parse(body.value).Response?
      ensures old(incoming) == [] ==> again && incoming == []
      ensures old(checks) >= 2 * |old(incoming)| + 2 ==>
        && FirstResponse(old(incoming), parse) == (if again then FirstResponse(incoming, parse) else Outcome(body, incoming))
        && (again && incoming != [] ==> |incoming| < |old(incoming)| && checks + 2 * (|old(incoming)| - |incoming|) >= old(checks))
    {
      ghost var s, budget := incoming, checks;
      var length := ReadContentLength();
      if length.None? {
        if budget >= |s| + 1 { NoLength(s, parse); }
        return None, true;
      }
      if budget >= |s| + 1 { WithLength(s, parse); }
      body, again := ReadMessage(length.value);
    }

    /** `_read_response`: with time for it, the first message with an id. */
    method ReadResponse() returns (body: Option<Bytes>)
      modifies this`incoming, this`checks
      ensures IsSuffix(incoming, old(incoming))
      ensures body.Some? ==> parse(body.value).Response?
      ensures old(checks) >= 3 * |old(incoming)| + 3 ==> Outcome(body, incoming) == FirstResponse(old(incoming), parse)
    {
      ghost var enough, goal := checks >= 3 * |incoming| + 3, FirstResponse(incoming, parse);
      while true
        invariant IsSuffix(incoming, old(incoming))
        invariant enough ==> (incoming != [] ==> checks >= 3 * |incoming| + 3) && FirstResponse(incoming, parse) == goal
        decreases checks
      {
        var inTime := BeforeDeadline();
        if !inTime { break; }
        var again;
        body, again := ReadTurn();
        if !again { return; }
      }
      EmptyStream(parse);
      return None;
    }

    method Send(message: Bytes)
      modifies this`outgoing
      ensures outgoing == old(outgoing) + Frame(message)
    {
      outgoing := outgoing + Header(|message|);
      outgoing := outgoing + message;
    }

    /** `_send_request`: the result is the next answer, and only if it answers this request. */
    method SendRequest() returns (result: Option<Bytes>)
      modifies this`incoming, this`checks, this`outgoing, this`requestId
      ensures requestId == old(requestId) + 1 && outgoing == old(outgoing) + Frame(encode(requestId))
      ensures result.Some? ==> parse(result.value) == Response(requestId, false)
      ensures old(checks) >= 3 * |old(incoming)| + 3 ==>
        var first := FirstResponse(old(incoming), parse);
        && incoming == first.rest
        && result == if first.body.Some? && parse(first.body.value) == Response(requestId, false) then first.body else None
    {
      requestId := requestId + 1;
      Send(encode(requestId));
      var body := ReadResponse();
      if body.None? || parse(body.value).id != requestId || parse(body.value).failed { return None; }
      return body;
    }
  }

  // ---- the reader undoes the writer -----------------------------------------------------------

  lemma {:induction false} DecimalReads(n: nat)
    ensures Numeral(Decimal(n)) == Some(n)
  {
    if n >= 10 {
      DecimalReads(n / 10);
      var s := Decimal(n);
      assert s[..|s| - 1] == Decimal(n / 10) && IsDigit(s[|s| - 2]);
    }
  }

  /** Blanks around a text that starts and ends with none are all that stripping takes off. */
  lemma {:induction false} StripRightTakes(s: Bytes, blanks: Bytes)
    requires s != [] && !IsBlank(s[|s| - 1]) && forall k :: 0 <= k < |blanks| ==> IsBlank(blanks[k])
    ensures StripRight(s + blanks) == s
  {
    if blanks == [] {
      assert s + blanks == s;
    } else {
      assert (s + blanks)[..|s + blanks| - 1] == s + blanks[..|blanks| - 1];
      StripRightTakes(s, blanks[..|blanks| - 1]);
    }
  }

  lemma DecimalToInt(n: nat)
    ensures ToInt([SPACE] + Decimal(n)) == Some(n)
  {
    var d := Decimal(n);
    assert ([SPACE] + d)[1..] == d;
    assert StripLeft(d) == d && StripRight(d) == d;
    assert Strip([SPACE] + d) == d;
    DecimalReads(n);
  }

  lemma {:induction false} NoBreak(s: Bytes)
    requires forall k :: 0 <= k < |s| ==> s[k] != CR
    ensures FirstBreak(s) == |s|
  {
    if |s| >= 2 { NoBreak(s[1..]); }
  }

  /** The name is read in any case. */
  lemma AnyCaseReads(name: Bytes, n: nat)
    requires |name| == |LOWER_NAME| && forall k :: 0 <= k < |name| ==> Lower(name[k]) == LOWER_NAME[k]
    ensures LengthIn(name + [SPACE] + Decimal(n)) == Some(n)
  {
    var line := name + [SPACE] + Decimal(n);
    forall k | 0 <= k < |line| ensures line[k] != CR {
      if k < |name| { assert line[k] == name[k] && Lower(name[k]) == LOWER_NAME[k]; }
    }
    NoBreak(line);
    assert line[..|line|] == line;
    assert line[|LOWER_NAME|..|line|] == [SPACE] + Decimal(n);
    assert NamesLength(line) by {
      forall k | 0 <= k < |LOWER_NAME| ensures Lower(line[k]) == LOWER_NAME[k] { assert line[k] == name[k]; }
    }
    DecimalToInt(n);
  }

  lemma LineReads(n: nat)
    ensures LengthIn(NAME + [SPACE] + Decimal(n)) == Some(n)
  {
    AnyCaseReads(NAME, n);
  }

  /** The header's text gives the length back. */
  lemma HeaderReads(n: nat)
    ensures ParseHeader(Header(n)) == Some(n)
  {
    var line := NAME + [SPACE] + Decimal(n);
    assert Header(n) == line + [CR, LF, CR, LF];
    assert StripLeft(Header(n)) == Header(n);
    StripRightTakes(line, [CR, LF, CR, LF]);
    LineReads(n);
  }

  lemma {:induction false} EndsAt(s: Bytes, k: nat, e: nat)
    requires k <= e <= |s| && EndsHeader(s[..e]) && forall j :: k <= j < e ==> !EndsHeader(s[..j])
    ensures HeaderEnd(s, k) == e
    decreases e - k
  {
    if k < e { EndsAt(s, k + 1, e); }
  }

  lemma NoEarlierEnd(line: Bytes, j: nat)
    requires j < |line| + 4 && forall k :: 0 <= k < |line| ==> line[k] != LF
    requires line != []
    ensures !EndsHeader((line + [CR, LF, CR, LF])[..j])
  {
    var h := line + [CR, LF, CR, LF];
    assert j >= 1 ==> h[..j][j - 1] == h[j - 1];
    assert j >= 2 ==> h[..j][j - 2] == h[j - 2];
    assert j >= 3 ==> h[..j][j - 3] == h[j - 3];
  }

  /** A header ends where it was written to end, whatever follows. */
  lemma HeaderEndsItself(n: nat, rest: Bytes)
    ensures HeaderEnd(Header(n) + rest, 0) == |Header(n)| && EndsHeader(Header(n))
  {
    var h := Header(n);
    var s := h + rest;
    assert s[..|h|] == h;
    forall j | 0 <= j < |h| ensures !EndsHeader(s[..j]) {
      assert s[..j] == h[..j];
      NoEarlierEnd(NAME + [SPACE] + Decimal(n), j);
    }
    EndsAt(s, 0, |h|);
  }

  /** The reader takes a frame exactly apart. */
  lemma FrameReads(body: Bytes, rest: Bytes, parse: Bytes -> Message)
    requires body != []
    ensures FirstResponse(Frame(body) + rest, parse) ==
              match parse(body)
              case Malformed => Outcome(None, rest)
              case Notification => FirstResponse(rest, parse)
              case Response(_, _) => Outcome(Some(body), rest)
  {
    var s, h := Frame(body) + rest, Header(|body|);
    assert s == h + (body + rest);
    HeaderEndsItself(|body|, body + rest);
    HeaderReads(|body|);
    assert s[..|h|] == h && s[|h|..] == body + rest;
    WithLength(s, parse);
    assert (body + rest)[..|body|] == body && (body + rest)[|body|..] == rest;
  }

  /** However many notifications come first, reading gives the first message with an id and
      stops at the next frame. */
  lemma {:induction false} FramesRead(bodies: seq<Bytes>, k: nat, rest: Bytes, parse: Bytes -> Message)
    requires k < |bodies| && forall i :: 0 <= i <= k ==> bodies[i] != []
    requires parse(bodies[k]).Response? && forall i :: 0 <= i < k ==> parse(bodies[i]).Notification?
    ensures FirstResponse(Frames(bodies) + rest, parse) == Outcome(Some(bodies[k]), Frames(bodies[k + 1..]) + rest)
    decreases |bodies|
  {
    var tail := Frames(bodies[1..]) + rest;
    assert Frames(bodies) + rest == Frame(bodies[0]) + tail;
    FrameReads(bodies[0], tail, parse);
    if k > 0 {
      FramesRead(bodies[1..], k - 1, rest, parse);
      assert bodies[1..][k - 1 + 1..] == bodies[k + 1..];
    }
  }

  /** A frame with an empty body is written, but reading one gives up. */
  lemma EmptyBodyStopsReading(rest: Bytes, parse: Bytes -> Message)
    ensures FirstResponse(Frame([]) + rest, parse) == Outcome(None, rest)
  {
    var s, h := Frame([]) + rest, Header(0);
    assert s == h + rest;
    HeaderEndsItself(0, rest);
    HeaderReads(0);
    assert s[..|h|] == h && s[|h|..] == rest;
    WithLength(s, parse);
  }

  /** What n readings of a response give, stopping at the first that fails, and what they
      leave of the stream. */
  function Readings(s: Bytes, parse: Bytes -> Message, n: nat): (seq<Bytes>, Bytes)
    decreases n
  {
    if n == 0 then ([], s)
    else
      var first := FirstResponse(s, parse);
      if first.body.None? then ([], first.rest)
      else
        var (later, rest) := Readings(first.rest, parse, n - 1);
        ([first.body.value] + later, rest)
  }

  /** The messages with an id, in order. */
  function Answers(bodies: seq<Bytes>, parse: Bytes -> Message): seq<Bytes> {
    if bodies == [] then []
    else if parse(bodies[0]).Response? then [bodies[0]] + Answers(bodies[1..], parse)
    else Answers(bodies[1..], parse)
  }

  /** The notifications after the last of them. */
  function Leftover(bodies: seq<Bytes>, parse: Bytes -> Message): seq<Bytes> {
    if Answers(bodies, parse) == [] then bodies else Leftover(bodies[1..], parse)
  }

  /** One frame in front adds its answer, or nothing. */
  lemma FrameThenReadings(body: Bytes, tail: Bytes, parse: Bytes -> Message, n: nat)
    requires body != []
    ensures parse(body).Response? ==>
      Readings(Frame(body) + tail, parse, n + 1) == ([body] + Readings(tail, parse, n).0, Readings(tail, parse, n).1)
    ensures parse(body).Notification? && n > 0 ==> Readings(Frame(body) + tail, parse, n) == Readings(tail, parse, n)
  {
    FrameReads(body, tail, parse);
  }

  ghost predicate AllRead(bodies: seq<Bytes>, s: Bytes, rest: Bytes, parse: Bytes -> Message) {
    Readings(s, parse, |Answers(bodies, parse)|) == (Answers(bodies, parse), Frames(Leftover(bodies, parse)) + rest)
  }

  /** A frame that can be read adds nothing to what must be so of the later ones. */
  lemma OneFrameMore(bodies: seq<Bytes>, tail: Bytes, rest: Bytes, parse: Bytes -> Message)
    requires Answers(bodies, parse) != [] && bodies[0] != [] && !parse(bodies[0]).Malformed?
    ensures AllRead(bodies, Frame(bodies[0]) + tail, rest, parse) <==> AllRead(bodies[1..], tail, rest, parse)
  {
    var later := bodies[1..];
    FrameThenReadings(bodies[0], tail, parse, |Answers(later, parse)|);
    assert Answers(later, parse) == [] ==> Leftover(later, parse) == later;
    if parse(bodies[0]).Response? {
      var (a, r) := Readings(tail, parse, |Answers(later, parse)|);
      assert [bodies[0]] + a == Answers(bodies, parse) <==> a == Answers(later, parse) by {
        assert ([bodies[0]] + a)[1..] == a && Answers(bodies, parse)[1..] == Answers(later, parse);
      }
    }
  }

  /** One that cannot ends all reading. */
  lemma FrameLost(bodies: seq<Bytes>, tail: Bytes, rest: Bytes, parse: Bytes -> Message)
    requires Answers(bodies, parse) != [] && (bodies[0] == [] || parse(bodies[0]).Malformed?)
    ensures !AllRead(bodies, Frame(bodies[0]) + tail, rest, parse)
  {
    if bodies[0] == [] { EmptyBodyStopsReading(tail, parse); } else { FrameReads(bodies[0], tail, parse); }
  }

  /** No body up to the last message with an id is empty or malformed. */
  predicate Unbroken(bodies: seq<Bytes>, parse: Bytes -> Message) {
    Answers(bodies, parse) == [] || (bodies[0] != [] && !parse(bodies[0]).Malformed? && Unbroken(bodies[1..], parse))
  }

  lemma {:induction false} UnbrokenMeans(bodies: seq<Bytes>, parse: Bytes -> Message)
    ensures |Leftover(bodies, parse)| <= |bodies| && (Answers(bodies, parse) == [] <==> |Leftover(bodies, parse)| == |bodies|)
    ensures Unbroken(bodies, parse)
            <==> forall i :: 0 <= i < |bodies| - |Leftover(bodies, parse)| ==> bodies[i] != [] && !parse(bodies[i]).Malformed?
  {
    if Answers(bodies, parse) != [] {
      var later, n := bodies[1..], |bodies| - |Leftover(bodies, parse)|;
      UnbrokenMeans(later, parse);
      assert |Leftover(bodies, parse)| == |Leftover(later, parse)|;
      if Unbroken(bodies, parse) {
        forall i | 0 <= i < n ensures bodies[i] != [] && !parse(bodies[i]).Malformed? {
          if i > 0 { assert later[i - 1] == bodies[i]; }
        }
      }
    }
  }

  lemma {:induction false} ReadIfUnbroken(bodies: seq<Bytes>, rest: Bytes, parse: Bytes -> Message)
    ensures AllRead(bodies, Frames(bodies) + rest, rest, parse) <==> Unbroken(bodies, parse)
    decreases |bodies|
  {
    if Answers(bodies, parse) != [] {
      var tail := Frames(bodies[1..]) + rest;
      assert Frames(bodies) + rest == Frame(bodies[0]) + tail;
      if bodies[0] == [] || parse(bodies[0]).Malformed? {
        FrameLost(bodies, tail, rest, parse);
      } else {
        ReadIfUnbroken(bodies[1..], rest, parse);
        OneFrameMore(bodies, tail, rest, parse);
      }
    }
  }

  /** Reading again and again returns all messages with an id, in the order they were written
      and nothing else, and ends at a frame boundary, exactly when no frame up to the last of
      them has an empty or a malformed body. */
  lemma AllFramesRead(bodies: seq<Bytes>, rest: Bytes, parse: Bytes -> Message)
    ensures |Leftover(bodies, parse)| <= |bodies|
    ensures AllRead(bodies, Frames(bodies) + rest, rest, parse)
            <==> forall i :: 0 <= i < |bodies| - |Leftover(bodies, parse)| ==> bodies[i] != [] && !parse(bodies[i]).Malformed?
  {
    UnbrokenMeans(bodies, parse);
    ReadIfUnbroken(bodies, rest, parse);
  }
}
