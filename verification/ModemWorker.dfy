/** The modem request worker: clients of a bounded queue, served one at a time. */
module ModemWorker {
  import opened Wrappers
  import opened Text
  import FakeModem

  const REQUEST_QUEUE_CAPACITY := 32

  datatype ModemError = Dbus(message: string) | Timeout | NoModem | UnsupportedModem(model: string)

  datatype NetworkRegistration = NotRegistered | RegisteredHome | Searching | Denied | Unknown | RegisteredRoaming

  function FromCode(code: int): NetworkRegistration {
    if code == 0 then NotRegistered else if code == 1 then RegisteredHome else if code == 2 then Searching
    else if code == 3 then Denied else if code == 5 then RegisteredRoaming else Unknown
  }

  // --- response parsers ---

  function RegistrationInLine(line: string): Option<NetworkRegistration> {
    var l := Trim(line);
    if !StartsWith(l, "+CREG:") && !StartsWith(l, "+CEREG:") then None
    else
      var sections := Split(l, ':');
      if |sections| < 2 then None
      else
        var parts := Split(Trim(sections[1]), ',');
        if |parts| < 2 then None
        else match ParseInt(Trim(parts[1]), 0, 255)
          case Some(code) => Some(FromCode(code))
          case None => None
  }

  /** The first line that carries a registration status. */
  function FirstRegistration(lines: seq<string>): Option<NetworkRegistration> {
    if lines == [] then None
    else if RegistrationInLine(lines[0]).Some? then RegistrationInLine(lines[0])
    else FirstRegistration(lines[1..])
  }

  function ParseRegistration(response: string): Option<NetworkRegistration> { FirstRegistration(Lines(response)) }

  function FirstDigits(lines: seq<string>): Option<string> {
    if lines == [] then None
    else if Trim(lines[0]) != "" && AllDigits(Trim(lines[0])) then Some(Trim(lines[0]))
    else FirstDigits(lines[1..])
  }

  function ParseCimi(response: string): Option<string> { FirstDigits(Lines(response)) }

  // --- what the parsers answer ---

  /** The codes of 3GPP TS 27.007 for a registration status. */
  function CodeOf(status: NetworkRegistration): nat {
    match status
    case NotRegistered => 0
    case RegisteredHome => 1
    case Searching => 2
    case Denied => 3
    case Unknown => 4
    case RegisteredRoaming => 5
  }

  /** Every status is read back from its code, and every code without a status of its own is unknown. */
  lemma CodeRoundTrip(status: NetworkRegistration, code: nat)
    ensures FromCode(CodeOf(status)) == status
    ensures FromCode(code) != Unknown <==> code != 4 && code <= 5
  {
  }

  /** A line that reads as an IMSI: digits and nothing else, but for surrounding white space. */
  predicate IsImsiLine(line: string) {
    Trim(line) != "" && forall i | 0 <= i < |Trim(line)| :: '0' <= Trim(line)[i] <= '9'
  }

  /** The IMSI is the first such line, without its white space, and there is none exactly when
      there is no such line. */
  lemma {:induction false} FirstImsiLine(lines: seq<string>)
    ensures FirstDigits(lines).None? <==> forall k | 0 <= k < |lines| :: !IsImsiLine(lines[k])
    ensures forall x :: FirstDigits(lines) == Some(x) <==>
              exists k | 0 <= k < |lines| :: Trim(lines[k]) == x && IsImsiLine(lines[k]) && NoneBefore(lines, k)
  {
    if lines != [] && !IsImsiLine(lines[0]) {
      FirstImsiLine(lines[1..]);
      assert FirstDigits(lines) == FirstDigits(lines[1..]);
      forall k | 0 <= k < |lines| - 1 ensures NoneBefore(lines, k + 1) <==> NoneBefore(lines[1..], k) {
        NoneBeforeTail(lines, k);
      }
      forall x ensures FirstDigits(lines) == Some(x) <==>
              exists k | 0 <= k < |lines| :: Trim(lines[k]) == x && IsImsiLine(lines[k]) && NoneBefore(lines, k)
      {
        if k :| 0 <= k < |lines| && Trim(lines[k]) == x && IsImsiLine(lines[k]) && NoneBefore(lines, k) {
          assert lines[1..][k - 1] == lines[k] && NoneBefore(lines[1..], k - 1);
        }
        if k :| 0 <= k < |lines[1..]| && Trim(lines[1..][k]) == x && IsImsiLine(lines[1..][k]) && NoneBefore(lines[1..], k) {
          assert lines[k + 1] == lines[1..][k] && NoneBefore(lines, k + 1);
        }
      }
    }
  }

  predicate NoneBefore(lines: seq<string>, k: nat)
    requires k <= |lines|
  {
    forall j | 0 <= j < k :: !IsImsiLine(lines[j])
  }

  lemma NoneBeforeTail(lines: seq<string>, k: nat)
    requires lines != [] && !IsImsiLine(lines[0]) && k < |lines|
    ensures NoneBefore(lines, k + 1) <==> NoneBefore(lines[1..], k)
  {
    assert forall j | 0 <= j < k :: lines[1..][j] == lines[j + 1];
    if NoneBefore(lines[1..], k) {
      forall j | 0 <= j < k + 1 ensures !IsImsiLine(lines[j]) {
        if j > 0 { assert lines[1..][j - 1] == lines[j]; }
      }
    }
  }

  lemma DigitsOnly(lines: seq<string>)
    ensures FirstDigits(lines).Some? ==>
              var x := FirstDigits(lines).value; x != "" && forall i | 0 <= i < |x| :: '0' <= x[i] <= '9'
  {
    FirstImsiLine(lines);
    if FirstDigits(lines).Some? {
      var x := FirstDigits(lines).value;
      var k :| 0 <= k < |lines| && Trim(lines[k]) == x && IsImsiLine(lines[k]) && NoneBefore(lines, k);
    }
  }

  /** What a reply reads as: a non-empty text of digits, or nothing when no line is one. */
  lemma CimiIsDigits(response: string)
    ensures ParseCimi(response).Some? ==>
              var x := ParseCimi(response).value; x != "" && forall i | 0 <= i < |x| :: '0' <= x[i] <= '9'
    ensures ParseCimi(response).None? <==> forall k | 0 <= k < |Lines(response)| :: !IsImsiLine(Lines(response)[k])
  {
    var lines := Lines(response);
    DigitsOnly(lines);
    FirstImsiLine(lines);
    assert ParseCimi(response) == FirstDigits(lines);
  }

  /** Lines as a modem sends them, and what follows. */
  function Sent(lines: seq<string>, rest: string): string {
    if lines == [] then rest else lines[0] + "\r\n" + Sent(lines[1..], rest)
  }

  lemma {:induction false} SentLines(lines: seq<string>, rest: string)
    requires forall l | l in lines :: '\n' !in l
    ensures Lines(Sent(lines, rest)) == lines + Lines(rest)
  {
    if lines != [] {
      LinesHead(lines[0], Sent(lines[1..], rest));
      SentLines(lines[1..], rest);
      ConsAppend(lines, Lines(rest));
    }
  }

  lemma ConsAppend<T>(xs: seq<T>, ys: seq<T>)
    requires xs != []
    ensures [xs[0]] + (xs[1..] + ys) == xs + ys
  {
  }

  /** IMSI round trip: after any lines that do not read as one, a printed text of digits is read
      back, whatever follows. */
  lemma {:induction false} ImsiRoundTrip(before: seq<string>, digits: string, rest: string)
    requires forall l | l in before :: '\n' !in l && !IsImsiLine(l)
    requires digits != "" && forall i | 0 <= i < |digits| :: '0' <= digits[i] <= '9'
    ensures ParseCimi(Sent(before + [digits], rest)) == Some(digits)
  {
    var all := before + [digits];
    SentLines(all, rest);
    TrimFixed(IsSpace, digits);
    var lines, k := all + Lines(rest), |before|;
    assert lines[k] == digits && forall j | 0 <= j < k :: lines[j] == before[j] && before[j] in before;
    assert NoneBefore(lines, k) && IsImsiLine(lines[k]);
    FirstImsiLine(lines);
  }

  /** Only a line that starts with one of the two headings is about registration. */
  lemma OtherLinesAreIgnored(line: string)
    requires !("+CREG:" <= Trim(line)) && !("+CEREG:" <= Trim(line))
    ensures RegistrationInLine(line).None?
  {
  }

  /** A registration line with a mode and a status code. */
  function RegistrationLine(eps: bool, mode: nat, code: nat): string {
    (if eps then "+CEREG" else "+CREG") + ":" + (" " + (Show(mode) + "," + Show(code)))
  }

  lemma RegistrationFields(mode: nat, code: nat)
    ensures var text := Show(mode) + "," + Show(code);
            Trim(" " + text) == text && Split(text, ',') == [Show(mode), Show(code)]
  {
    var text := Show(mode) + "," + Show(code);
    assert text == Show(mode) + [','] + Show(code);
    SplitHead(Show(mode), ',', Show(code));
    SplitWhole(Show(code), ',');
    TrimIndented(text);
  }

  lemma TrimIndented(text: string)
    requires text != "" && !IsSpace(text[0]) && !IsSpace(text[|text| - 1])
    ensures Trim(" " + text) == text
  {
    TrimFixed(IsSpace, text);
    assert (" " + text)[1..] == text;
  }

  lemma LineIsTrimmed(eps: bool, mode: nat, code: nat)
    ensures var line := RegistrationLine(eps, mode, code);
            Trim(line) == line && (StartsWith(line, "+CREG:") || StartsWith(line, "+CEREG:"))
  {
    var head, digits := (if eps then "+CEREG" else "+CREG") + ":", Show(code);
    var body := " " + (Show(mode) + "," + digits);
    assert body[|body| - 1] == digits[|digits| - 1];
    TrimEnclosed(head, body);
  }

  lemma TrimEnclosed(head: string, body: string)
    requires head != "" && !IsSpace(head[0]) && body != "" && !IsSpace(body[|body| - 1])
    ensures Trim(head + body) == head + body && StartsWith(head + body, head)
  {
    TrimFixed(IsSpace, head + body);
  }

  lemma LineSections(eps: bool, mode: nat, code: nat)
    ensures Split(RegistrationLine(eps, mode, code), ':') ==
              [if eps then "+CEREG" else "+CREG", " " + (Show(mode) + "," + Show(code))]
  {
    var head, body := if eps then "+CEREG" else "+CREG", " " + (Show(mode) + "," + Show(code));
    assert RegistrationLine(eps, mode, code) == head + [':'] + body;
    SplitHead(head, ':', body);
    SplitWhole(body, ':');
  }

  lemma LineIsRead(eps: bool, mode: nat, code: nat)
    requires code < 256
    ensures RegistrationInLine(RegistrationLine(eps, mode, code)) == Some(FromCode(code))
  {
    LineIsTrimmed(eps, mode, code);
    LineSections(eps, mode, code);
    RegistrationFields(mode, code);
    TrimFixed(IsSpace, Show(code));
    ParseShown(code, 0, 255);
  }

  /** Registration round trip: after any lines that are not about registration, a printed
      status of either kind is read back. */
  lemma {:induction false} RegistrationRoundTrip(before: seq<string>, eps: bool, mode: nat, code: nat, rest: seq<string>)
    requires code < 256 && forall l | l in before :: RegistrationInLine(l).None?
    ensures FirstRegistration(before + [RegistrationLine(eps, mode, code)] + rest) == Some(FromCode(code))
  {
    var lines := before + [RegistrationLine(eps, mode, code)] + rest;
    if before == [] {
      assert lines[0] == RegistrationLine(eps, mode, code);
      LineIsRead(eps, mode, code);
    } else {
      assert lines[0] == before[0] && lines[1..] == before[1..] + [RegistrationLine(eps, mode, code)] + rest;
      RegistrationRoundTrip(before[1..], eps, mode, code, rest);
    }
  }

  /** The same in a reply, by status: after any other lines it is read back, whatever follows. */
  lemma StatusRoundTrip(before: seq<string>, eps: bool, mode: nat, status: NetworkRegistration, rest: string)
    requires forall l | l in before :: '\n' !in l && RegistrationInLine(l).None?
    ensures ParseRegistration(Sent(before + [RegistrationLine(eps, mode, CodeOf(status))], rest)) == Some(status)
  {
    var line := RegistrationLine(eps, mode, CodeOf(status));
    SentLines(before + [line], rest);
    RegistrationRoundTrip(before, eps, mode, CodeOf(status), Lines(rest));
    CodeRoundTrip(status, 0);
  }

  /** The simulated modem is registered at home, whichever domain is asked. */
  lemma SimulatedRegistration(q: FakeModem.Query, n: nat)
    requires q.ForEpsRegistration? || q.ForRegistration?
    ensures ParseRegistration(FakeModem.Respond(q, n)) == Some(RegisteredHome)
  {
    assert Show(0) == "0" && Show(1) == "1";
    if q.ForEpsRegistration? {
      SimulatedStatus("+CEREG: 0,1", true);
    } else {
      SimulatedStatus("+CREG: 0,1", false);
    }
  }

  /** And it has its fixed IMSI. */
  lemma SimulatedSim(n: nat)
    ensures ParseCimi(FakeModem.Respond(FakeModem.ForImsi, n)) == Some("001010123456789")
  {
    SimulatedImsi(FakeModem.FAKE_IMSI);
  }

  lemma SimulatedImsi(imsi: string)
    requires imsi != "" && forall i | 0 <= i < |imsi| :: '0' <= imsi[i] <= '9'
    ensures ParseCimi(imsi + "\r\nOK") == Some(imsi)
  {
    ImsiRoundTrip([], imsi, "OK");
    assert [] + [imsi] == [imsi];
    assert imsi + "\r\n" + "OK" == imsi + "\r\nOK";
  }

  lemma SimulatedStatus(line: string, eps: bool)
    requires line == RegistrationLine(eps, 0, 1)
    ensures ParseRegistration(line + "\r\nOK") == Some(RegisteredHome)
  {
    StatusRoundTrip([], eps, 0, RegisteredHome, "OK");
    assert [] + [line] == [line];
    assert line + "\r\n" + "OK" == line + "\r\nOK";
  }

  // --- transactions ---

  datatype Kind = Model | Command(cmd: string, timeoutMs: nat) | Imsi | RegistrationStatus

  datatype Op = ReadModel | Send(cmd: string, timeoutMs: nat)

  type Reply = Result<string, ModemError>

  datatype Answer = Content(text: string) | Registration(status: NetworkRegistration)

  const CEREG := Send("AT+CEREG?", 3000)
  const CREG := Send("AT+CREG?", 3000)
  const CIMI := Send("AT+CIMI", 3000)

  const DROPPED: Result<Answer, ModemError> := Err(Dbus("modem worker dropped reply"))

  predicate Registered(r: Reply) { r.Ok? && ParseRegistration(r.value).Some? }

  /** The next backend operation of a request, given the replies it has had. */
  function NextOp(kind: Kind, replies: seq<Reply>): Option<Op> {
    match kind
    case Model => if replies == [] then Some(ReadModel) else None
    case Command(cmd, t) => if replies == [] then Some(Send(cmd, t)) else None
    case Imsi => if replies == [] then Some(CIMI) else None
    case RegistrationStatus =>
      if replies == [] then Some(CEREG)
      else if |replies| == 1 && !Registered(replies[0]) then Some(CREG)
      else None
  }

  function ToContent(r: Reply): Result<Answer, ModemError> {
    match r
    case Ok(text) => Ok(Content(text))
    case Err(e) => Err(e)
  }

  function ToRegistration(r: Reply): Result<Answer, ModemError> {
    match r
    case Err(e) => Err(e)
    case Ok(text) =>
      match ParseRegistration(text)
      case Some(status) => Ok(Registration(status))
      case None => Err(Dbus("failed to parse registration status"))
  }

  function ToImsi(r: Reply): Result<Answer, ModemError> {
    match r
    case Err(e) => Err(e)
    case Ok(text) =>
      match ParseCimi(text)
      case Some(imsi) => Ok(Content(imsi))
      case None => Err(Dbus("failed to parse IMSI from AT+CIMI response"))
  }

  /** What a request is answered with once it needs no further operation: it depends on the last reply alone. */
  function Outcome(kind: Kind, replies: seq<Reply>): Result<Answer, ModemError>
    requires replies != []
  {
    var last := replies[|replies| - 1];
    match kind
    case Model => ToContent(last)
    case Command(_, _) => ToContent(last)
    case RegistrationStatus => ToRegistration(last)
    case Imsi => ToImsi(last)
  }

  // --- the system ---

  /** A request's call number is its place in the order of submission. */
  datatype Request = Request(call: nat, kind: Kind)

  /** One backend operation, with the call it was made for and its reply. */
  datatype Entry = Entry(call: nat, op: Op, reply: Reply)

  datatype Worker = Idle | Busy(request: Request, replies: seq<Reply>) | Exited

  /** A caller waits, has its answer, or has gone (timed out or dropped). */
  datatype Caller = Waiting | Got(answer: Result<Answer, ModemError>) | Gone

  datatype State = State(
    submitted: seq<Kind>,
    queue: seq<Request>,
    worker: Worker,
    log: seq<Entry>,
    callers: seq<Caller>)

  const INIT := State([], [], Idle, [], [])

  datatype Action =
    | Submit(kind: Kind)
    | Leave(call: nat)
    | Dequeue
    | Backend(reply: Reply)
    | Finish
    | Shutdown

  predicate Enabled(s: State, a: Action) {
    match a
    case Submit(_) => |s.queue| < REQUEST_QUEUE_CAPACITY && !s.worker.Exited?
    case Leave(call) => call < |s.callers|
    case Dequeue => s.worker.Idle? && s.queue != []
    case Backend(_) => s.worker.Busy? && NextOp(s.worker.request.kind, s.worker.replies).Some?
    case Finish => s.worker.Busy? && s.worker.replies != [] && NextOp(s.worker.request.kind, s.worker.replies).None?
    case Shutdown => s.worker.Idle?
  }

  /** A one-shot reply: it reaches a caller that still waits and is otherwise discarded. */
  function Deliver(callers: seq<Caller>, call: nat, answer: Result<Answer, ModemError>): seq<Caller> {
    if call < |callers| && callers[call].Waiting? then callers[call := Got(answer)] else callers
  }

  /** The reply channel of every request still queued is dropped with the queue. */
  function DropAll(callers: seq<Caller>, queue: seq<Request>): (c: seq<Caller>)
    ensures |c| == |callers|
    ensures forall i | 0 <= i < |callers| ::
              c[i] == if callers[i].Waiting? && (exists r | r in queue :: r.call == i) then Got(DROPPED) else callers[i]
    decreases |queue|
  {
    if queue == [] then callers
    else
      assert queue == [queue[0]] + queue[1..];
      DropAll(Deliver(callers, queue[0].call, DROPPED), queue[1..])
  }

  function Next(s: State, a: Action): State
    requires Enabled(s, a)
  {
    match a
    case Submit(kind) =>
      s.(submitted := s.submitted + [kind], queue := s.queue + [Request(|s.submitted|, kind)], callers := s.callers + [Waiting])
    case Leave(call) => s.(callers := if s.callers[call].Waiting? then s.callers[call := Gone] else s.callers)
    case Dequeue => s.(queue := s.queue[1..], worker := Busy(s.queue[0], []))
    case Backend(reply) =>
      var w := s.worker;
      s.(worker := Busy(w.request, w.replies + [reply]),
         log := s.log + [Entry(w.request.call, NextOp(w.request.kind, w.replies).value, reply)])
    case Finish =>
      s.(worker := Idle,
         callers := Deliver(s.callers, s.worker.request.call, Outcome(s.worker.request.kind, s.worker.replies)))
    case Shutdown => s.(worker := Exited, callers := DropAll(s.callers, s.queue))
  }

  /** The state after a sequence of actions, and whether each was enabled in its turn. */
  function After(acts: seq<Action>): (bool, State) {
    if acts == [] then (true, INIT)
    else
      var (ok, s) := After(acts[..|acts| - 1]);
      var a := acts[|acts| - 1];
      if ok && Enabled(s, a) then (true, Next(s, a)) else (false, s)
  }

  lemma AfterAppend(acts: seq<Action>, a: Action)
    ensures After(acts + [a]) ==
              if After(acts).0 && Enabled(After(acts).1, a) then (true, Next(After(acts).1, a)) else (false, After(acts).1)
  {
    assert (acts + [a])[..|acts|] == acts;
  }

  // --- whole transactions, in order ---

  /** The log entries of one call. */
  function Of(log: seq<Entry>, call: nat): seq<Entry> {
    if log == [] then []
    else
      var front, last := Of(log[..|log| - 1], call), log[|log| - 1];
      if last.call == call then front + [last] else front
  }

  lemma OfAppend(log: seq<Entry>, e: Entry, call: nat)
    ensures Of(log + [e], call) == if e.call == call then Of(log, call) + [e] else Of(log, call)
  {
    assert (log + [e])[..|log|] == log;
  }

  /** The entries of calls 0 to n - 1, one call after the other. */
  function Blocks(log: seq<Entry>, n: nat): seq<Entry> {
    if n == 0 then [] else Blocks(log, n - 1) + Of(log, n - 1)
  }

  lemma {:induction false} BlocksBelow(log: seq<Entry>, longer: seq<Entry>, n: nat)
    requires forall c: nat | c < n :: Of(longer, c) == Of(log, c)
    ensures Blocks(longer, n) == Blocks(log, n)
  {
    if n > 0 {
      BlocksBelow(log, longer, n - 1);
    }
  }

  /** An entry of the last call goes to the end of the last block. */
  lemma BlocksAppend(log: seq<Entry>, e: Entry, n: nat)
    requires n == e.call + 1
    ensures Blocks(log + [e], n) == Blocks(log, n) + [e]
  {
    forall c: nat | c < n - 1 ensures Of(log + [e], c) == Of(log, c) { OfAppend(log, e, c); }
    BlocksBelow(log, log + [e], n - 1);
    OfAppend(log, e, n - 1);
    assert Blocks(log, n) + [e] == Blocks(log, n - 1) + (Of(log, n - 1) + [e]);
  }

  /** A complete transaction of a kind: which commands, and for which replies. */
  predicate WholeTransaction(kind: Kind, es: seq<Entry>) {
    match kind
    case Model => |es| == 1 && es[0].op == ReadModel
    case Command(cmd, t) => |es| == 1 && es[0].op == Send(cmd, t)
    case Imsi => |es| == 1 && es[0].op == Send("AT+CIMI", 3000)
    case RegistrationStatus =>
      || (|es| == 1 && es[0].op == Send("AT+CEREG?", 3000) && Registered(es[0].reply))
      || (|es| == 2 && es[0].op == Send("AT+CEREG?", 3000) && !Registered(es[0].reply) && es[1].op == Send("AT+CREG?", 3000))
  }

  /** What may stand in the log while the request is being served. */
  predicate PartOfTransaction(kind: Kind, es: seq<Entry>) {
    || es == []
    || (kind.RegistrationStatus? && |es| == 1 && es[0].op == CEREG && !Registered(es[0].reply))
    || WholeTransaction(kind, es)
  }

  function Replies(es: seq<Entry>): (rs: seq<Reply>)
    ensures |rs| == |es| && forall i | 0 <= i < |es| :: rs[i] == es[i].reply
  {
    seq(|es|, i requires 0 <= i < |es| => es[i].reply)
  }

  lemma NextOpContinues(kind: Kind, es: seq<Entry>, e: Entry)
    requires PartOfTransaction(kind, es) && NextOp(kind, Replies(es)) == Some(e.op)
    ensures PartOfTransaction(kind, es + [e]) && Replies(es + [e]) == Replies(es) + [e.reply]
  {
  }

  /** How many calls have been dequeued. */
  function Served(s: State): int { |s.submitted| - |s.queue| }

  ghost predicate InOrder(s: State) {
    && |s.queue| <= |s.submitted| == |s.callers| && |s.queue| <= REQUEST_QUEUE_CAPACITY
    && (forall i | 0 <= i < |s.queue| :: s.queue[i] == Request(Served(s) + i, s.submitted[Served(s) + i]))
    && (s.worker.Busy? ==> Served(s) > 0 && s.worker.request == Request(Served(s) - 1, s.submitted[Served(s) - 1]))
  }

  /** The call being served, if any. */
  predicate IsActive(s: State, call: nat) { s.worker.Busy? && s.worker.request.call == call }

  /**
    * One call's part of the log and its caller: nothing is sent before it is
    * dequeued; once served, its transaction is whole and its caller, if it
    * stayed, has the outcome of exactly those replies.
    */
  ghost predicate CallAgrees(s: State, call: nat)
    requires call < |s.submitted| == |s.callers|
  {
    var es, kind, caller := Of(s.log, call), s.submitted[call], s.callers[call];
    if call >= Served(s) then
      && es == []
      && (caller.Got? ==> s.worker.Exited? && caller.answer == DROPPED)
      && (caller.Waiting? ==> !s.worker.Exited?)
    else if IsActive(s, call) then
      PartOfTransaction(kind, es) && Replies(es) == s.worker.replies && !caller.Got?
    else
      && WholeTransaction(kind, es)
      && !caller.Waiting?
      && (caller.Got? ==> caller.answer == Outcome(kind, Replies(es)))
  }

  ghost predicate Inv(s: State) {
    && InOrder(s)
    && s.log == Blocks(s.log, Served(s))
    && forall c: nat | c < |s.submitted| :: CallAgrees(s, c)
  }

  lemma InOrderKept(s: State, a: Action)
    requires InOrder(s) && Enabled(s, a)
    ensures InOrder(Next(s, a))
  {
  }

  lemma {:induction false} NothingIn(log: seq<Entry>, c: nat)
    requires forall i | 0 <= i < |log| :: log[i].call != c
    ensures Of(log, c) == []
  {
    if log != [] {
      NothingIn(log[..|log| - 1], c);
    }
  }

  lemma {:induction false} BlocksBound(log: seq<Entry>, n: nat, i: nat)
    requires i < |Blocks(log, n)|
    ensures Blocks(log, n)[i].call < n
  {
    if i < |Blocks(log, n - 1)| {
      BlocksBound(log, n - 1, i);
    } else {
      OfIs(log, n - 1, i - |Blocks(log, n - 1)|);
    }
  }

  lemma {:induction false} OfIs(log: seq<Entry>, c: nat, i: nat)
    requires i < |Of(log, c)|
    ensures Of(log, c)[i].call == c
  {
    if i < |Of(log[..|log| - 1], c)| {
      OfIs(log[..|log| - 1], c, i);
    }
  }

  /** A call that has not been submitted has left no entry. */
  lemma NothingLogged(s: State, c: nat)
    requires Inv(s) && c >= Served(s)
    ensures Of(s.log, c) == []
  {
    forall i | 0 <= i < |s.log| ensures s.log[i].call != c {
      BlocksBound(s.log, Served(s), i);
    }
    NothingIn(s.log, c);
  }

  lemma BackendKeeps(s: State, reply: Reply, c: nat)
    requires Inv(s) && Enabled(s, Backend(reply)) && c < |s.submitted|
    ensures CallAgrees(Next(s, Backend(reply)), c)
  {
    assert CallAgrees(s, c);
    var t := Next(s, Backend(reply));
    var e := t.log[|s.log|];
    OfAppend(s.log, e, c);
    if c == e.call {
      NextOpContinues(s.submitted[c], Of(s.log, c), e);
    }
  }

  /** When no operation is left to do, the transaction is whole. */
  lemma FinishedIsWhole(kind: Kind, es: seq<Entry>)
    requires PartOfTransaction(kind, es) && es != [] && NextOp(kind, Replies(es)).None?
    ensures WholeTransaction(kind, es)
  {
  }

  lemma CallsAgree(s: State, a: Action, c: nat)
    requires Inv(s) && Enabled(s, a) && c < |Next(s, a).submitted| == |Next(s, a).callers|
    ensures CallAgrees(Next(s, a), c)
  {
    assert c < |s.submitted| ==> CallAgrees(s, c);
    match a
    case Submit(_) =>
      if c == |s.submitted| { NothingLogged(s, c); }
    case Backend(reply) => BackendKeeps(s, reply, c);
    case Finish =>
      if IsActive(s, c) { FinishedIsWhole(s.submitted[c], Of(s.log, c)); }
    case Shutdown =>
      if c >= Served(s) { assert s.queue[c - Served(s)].call == c; }
    case _ =>
  }

  lemma LogKept(s: State, a: Action)
    requires Inv(s) && Enabled(s, a)
    ensures Next(s, a).log == Blocks(Next(s, a).log, Served(Next(s, a)))
  {
    match a
    case Dequeue =>
      NothingLogged(s, Served(s));
      assert Blocks(s.log, Served(s) + 1) == Blocks(s.log, Served(s)) + [];
    case Backend(reply) =>
      BlocksAppend(s.log, Next(s, a).log[|s.log|], Served(s));
    case _ =>
  }

  lemma StepKeeps(s: State, a: Action)
    requires Inv(s) && Enabled(s, a)
    ensures Inv(Next(s, a))
  {
    InOrderKept(s, a);
    LogKept(s, a);
    forall c: nat | c < |Next(s, a).submitted| ensures CallAgrees(Next(s, a), c) { CallsAgree(s, a, c); }
  }

  lemma {:induction false} InvAfter(acts: seq<Action>)
    requires After(acts).0
    ensures Inv(After(acts).1)
  {
    if acts != [] {
      InvAfter(acts[..|acts| - 1]);
      StepKeeps(After(acts[..|acts| - 1]).1, acts[|acts| - 1]);
    }
  }

  /**
    * Over every interleaving of clients and worker, the backend's log is one
    * block per dequeued call, in the order of submission; a block that is not
    * being extended is a whole transaction, and only one can be.
    */
  lemma SerialTransactions(acts: seq<Action>)
    requires After(acts).0
    ensures var s := After(acts).1;
            && |s.queue| <= |s.submitted| && |s.queue| <= 32
            && s.log == Blocks(s.log, Served(s))
            && forall c: nat | c < |s.submitted| ::
                 if c >= Served(s) then Of(s.log, c) == []
                 else if IsActive(s, c) then c == Served(s) - 1 && PartOfTransaction(s.submitted[c], Of(s.log, c))
                 else WholeTransaction(s.submitted[c], Of(s.log, c))
  {
    InvAfter(acts);
    var s := After(acts).1;
    forall c: nat | c < |s.submitted|
      ensures if c >= Served(s) then Of(s.log, c) == []
              else if IsActive(s, c) then c == Served(s) - 1 && PartOfTransaction(s.submitted[c], Of(s.log, c))
              else WholeTransaction(s.submitted[c], Of(s.log, c))
    {
      assert CallAgrees(s, c);
    }
  }

  /**
    * A caller can only receive the outcome of its own request: of the replies
    * logged for its own call. It receives the dropped-reply error exactly when
    * the worker exits with the request still queued.
    */
  lemma OwnAnswer(acts: seq<Action>, c: nat)
    requires After(acts).0 && c < |After(acts).1.submitted|
    ensures var s := After(acts).1;
            && |s.callers| == |s.submitted|
            && var es := Of(s.log, c);
            match s.callers[c]
            case Waiting => (c >= Served(s) && !s.worker.Exited?) || IsActive(s, c)
            case Gone => true
            case Got(r) =>
              if c >= Served(s) then s.worker.Exited? && r == DROPPED
              else !IsActive(s, c) && es != [] && r == Outcome(s.submitted[c], Replies(es))
  {
    InvAfter(acts);
    assert CallAgrees(After(acts).1, c);
  }

  /** A caller answered by a served request has the outcome of one whole transaction, its own. */
  lemma {:induction false} AnsweredWhole(acts: seq<Action>, c: nat)
    requires After(acts).0 && c < |After(acts).1.submitted|
    requires c < Served(After(acts).1) && c < |After(acts).1.callers| && After(acts).1.callers[c].Got?
    ensures var s := After(acts).1;
            && WholeTransaction(s.submitted[c], Of(s.log, c))
            && s.callers[c].answer == Outcome(s.submitted[c], Replies(Of(s.log, c)))
  {
    SerialTransactions(acts);
    OwnAnswer(acts, c);
  }

  /** Model names and commands are answered verbatim: with the text of the one reply the backend
      gave for this call, or with its error. */
  lemma {:induction false} VerbatimAnswer(acts: seq<Action>, c: nat)
    requires After(acts).0 && c < |After(acts).1.submitted|
    requires var s := After(acts).1;
             c < Served(s) && c < |s.callers| && s.callers[c].Got? && (s.submitted[c].Model? || s.submitted[c].Command?)
    ensures var s := After(acts).1; var es := Of(s.log, c);
            && |es| == 1
            && match es[0].reply
               case Ok(text) => s.callers[c].answer == Ok(Content(text))
               case Err(e) => s.callers[c].answer == Err(e)
  {
    AnsweredWhole(acts, c);
  }

  /** An IMSI request is answered with digits read off the backend's reply, and otherwise with that
      reply's error or, when no line of it reads as one, with the parse error. */
  lemma {:induction false} ImsiAnswer(acts: seq<Action>, c: nat)
    requires After(acts).0 && c < |After(acts).1.submitted|
    requires var s := After(acts).1; c < Served(s) && c < |s.callers| && s.callers[c].Got? && s.submitted[c].Imsi?
    ensures var s := After(acts).1; var es := Of(s.log, c);
            && |es| == 1
            && match s.callers[c].answer
               case Ok(answer) =>
                 answer.Content? && answer.text != "" && forall i | 0 <= i < |answer.text| :: '0' <= answer.text[i] <= '9'
               case Err(e) =>
                 es[0].reply == Err(e)
                 || (es[0].reply.Ok? && forall k | 0 <= k < |Lines(es[0].reply.value)| :: !IsImsiLine(Lines(es[0].reply.value)[k]))
  {
    AnsweredWhole(acts, c);
    var es := Of(After(acts).1.log, c);
    if es[0].reply.Ok? { CimiIsDigits(es[0].reply.value); }
  }

  /** A registration request is answered with a status that the last reply carries, or that reply's
      error; the first reply decides alone exactly when it carries one. */
  lemma {:induction false} RegistrationAnswer(acts: seq<Action>, c: nat)
    requires After(acts).0 && c < |After(acts).1.submitted|
    requires var s := After(acts).1; c < Served(s) && c < |s.callers| && s.callers[c].Got? && s.submitted[c].RegistrationStatus?
    ensures var s := After(acts).1; var es := Of(s.log, c);
            && 1 <= |es| <= 2
            && (|es| == 1 <==> es[0].reply.Ok? && ParseRegistration(es[0].reply.value).Some?)
            && var last := es[|es| - 1].reply;
               match s.callers[c].answer
               case Ok(answer) =>
                 answer.Registration? && last.Ok? && ParseRegistration(last.value) == Some(answer.status)
               case Err(e) => last == Err(e) || (last.Ok? && ParseRegistration(last.value).None?)
  {
    AnsweredWhole(acts, c);
  }

  /** However the run goes on, a caller that was answered or has gone is never answered again. */
  lemma {:induction false} AnsweredAtMostOnce(acts: seq<Action>, more: seq<Action>, c: nat)
    requires After(acts + more).0 && After(acts).0
    requires c < |After(acts).1.callers| && !After(acts).1.callers[c].Waiting?
    ensures c < |After(acts + more).1.callers| && After(acts + more).1.callers[c] == After(acts).1.callers[c]
  {
    if more == [] {
      assert acts + more == acts;
    } else {
      var before, a := more[..|more| - 1], more[|more| - 1];
      assert acts + more == (acts + before) + [a];
      AfterAppend(acts + before, a);
      AnsweredAtMostOnce(acts, before, c);
    }
  }

  // --- callers that leave ---

  function WithoutLeaving(acts: seq<Action>): seq<Action> {
    if acts == [] then []
    else
      var front, a := WithoutLeaving(acts[..|acts| - 1]), acts[|acts| - 1];
      if a.Leave? then front else front + [a]
  }

  /** Two states that differ only in callers that one of them has lost. */
  ghost predicate SameButGone(s: State, t: State) {
    && s.submitted == t.submitted && s.queue == t.queue && s.worker == t.worker && s.log == t.log
    && |s.callers| == |t.callers|
    && forall c | 0 <= c < |s.callers| :: s.callers[c].Gone? || s.callers[c] == t.callers[c]
  }

  lemma BothStep(s: State, t: State, a: Action)
    requires SameButGone(s, t) && Enabled(s, a) && !a.Leave?
    ensures Enabled(t, a) && SameButGone(Next(s, a), Next(t, a))
  {
  }

  /**
    * Timeouts and dropped receivers change nothing for anyone else: leave them
    * out of a run and it is still a run, with the same queue, the same backend
    * log and the same answer for every caller that did not leave.
    */
  lemma {:induction false} LeavingDisturbsNobody(acts: seq<Action>)
    requires After(acts).0
    ensures After(WithoutLeaving(acts)).0 && SameButGone(After(acts).1, After(WithoutLeaving(acts)).1)
  {
    if acts != [] {
      var before, a := acts[..|acts| - 1], acts[|acts| - 1];
      LeavingDisturbsNobody(before);
      if !a.Leave? {
        BothStep(After(before).1, After(WithoutLeaving(before)).1, a);
        AfterAppend(WithoutLeaving(before), a);
      }
    }
  }

  // --- the service ---

  /** What one request makes of the backend when its first operation is the n-th. */
  function Transaction(kind: Kind, call: nat, backend: (Op, nat) -> Reply, n: nat): seq<Entry> {
    match kind
    case Model => [Entry(call, ReadModel, backend(ReadModel, n))]
    case Command(cmd, t) => [Entry(call, Send(cmd, t), backend(Send(cmd, t), n))]
    case Imsi => [Entry(call, CIMI, backend(CIMI, n))]
    case RegistrationStatus =>
      var first := Entry(call, CEREG, backend(CEREG, n));
      if Registered(first.reply) then [first] else [first, Entry(call, CREG, backend(CREG, n + 1))]
  }

  lemma TransactionIsWhole(kind: Kind, call: nat, backend: (Op, nat) -> Reply, n: nat)
    ensures var es := Transaction(kind, call, backend, n);
            WholeTransaction(kind, es) && es != [] && NextOp(kind, Replies(es)).None?
  {
  }

  /** The queue and its worker, with a backend that answers its n-th operation by backend(op, n). */
  class ModemAccessService {
    var submitted: seq<Kind>
    var queue: seq<Request>
    var worker: Worker
    var log: seq<Entry>
    var callers: seq<Caller>
    ghost var acts: seq<Action>

    ghost function View(): State
      reads this
    {
      State(submitted, queue, worker, log, callers)
    }

    ghost predicate Valid()
      reads this
    {
      After(acts) == (true, View())
    }

    constructor ()
      ensures Valid() && View() == INIT && acts == []
    {
      submitted, queue, worker, log, callers, acts := [], [], Idle, [], [], [];
    }

    ghost method Took(a: Action, was: State)
      requires After(acts) == (true, was) && Enabled(was, a) && View() == Next(was, a)
      modifies `acts
      ensures Valid() && acts == old(acts) + [a]
    {
      AfterAppend(acts, a);
      acts := acts + [a];
    }

    /** A client queues a request, unless the queue is full or the worker has exited. */
    method Enqueue(kind: Kind) returns (call: Option<nat>)
      requires Valid()
      modifies this
      ensures Valid()
      ensures call.Some? <==> |old(queue)| < 32 && !old(worker).Exited?
      ensures call.None? ==> View() == old(View())
      ensures call.Some? ==> View() == Next(old(View()), Submit(kind)) && call.value == |old(submitted)|
    {
      if worker.Exited? || |queue| >= REQUEST_QUEUE_CAPACITY { return None; }
      call := Some(|submitted|);
      queue := queue + [Request(|submitted|, kind)];
      submitted, callers := submitted + [kind], callers + [Waiting];
      Took(Submit(kind), old(View()));
    }

    /** A client's timeout passes, or it drops its receiver. */
    method Leave(call: nat)
      requires Valid() && call < |callers|
      modifies this
      ensures Valid() && View() == Next(old(View()), Action.Leave(call))
    {
      if callers[call].Waiting? { callers := callers[call := Gone]; }
      Took(Action.Leave(call), old(View()));
    }

    /** One operation of the backend, on behalf of the request being served. */
    method Operate(op: Op, backend: (Op, nat) -> Reply) returns (reply: Reply)
      requires Valid() && worker.Busy? && NextOp(worker.request.kind, worker.replies) == Some(op)
      modifies this
      ensures Valid() && reply == backend(op, |old(log)|) && View() == Next(old(View()), Backend(reply))
    {
      reply := backend(op, |log|);
      log := log + [Entry(worker.request.call, op, reply)];
      worker := Busy(worker.request, worker.replies + [reply]);
      Took(Backend(reply), old(View()));
    }

    /** The request being served has had the whole of its transaction. */
    ghost predicate Transacted(was: State, block: seq<Entry>)
      reads this
    {
      && was.worker.Busy?
      && View() == was.(log := was.log + block, worker := Busy(was.worker.request, Replies(block)))
    }

    method ReadModelName(backend: (Op, nat) -> Reply) returns (result: Result<Answer, ModemError>)
      requires Valid() && worker.Busy? && worker.request.kind.Model? && worker.replies == []
      modifies this
      ensures Valid() && Transacted(old(View()), Transaction(Model, old(worker.request.call), backend, |old(log)|))
      ensures worker.replies != [] && result == Outcome(Model, worker.replies)
    {
      var reply := Operate(ReadModel, backend);
      assert worker.replies == Replies(Transaction(Model, worker.request.call, backend, |old(log)|));
      result := ToContent(reply);
    }

    method SendCommand(cmd: string, timeoutMs: nat, backend: (Op, nat) -> Reply) returns (result: Result<Answer, ModemError>)
      requires Valid() && worker.Busy? && worker.request.kind == Command(cmd, timeoutMs) && worker.replies == []
      modifies this
      ensures Valid()
      ensures Transacted(old(View()), Transaction(Command(cmd, timeoutMs), old(worker.request.call), backend, |old(log)|))
      ensures worker.replies != [] && result == Outcome(Command(cmd, timeoutMs), worker.replies)
    {
      var reply := Operate(Send(cmd, timeoutMs), backend);
      assert worker.replies == Replies(Transaction(Command(cmd, timeoutMs), worker.request.call, backend, |old(log)|));
      result := ToContent(reply);
    }

    method ReadImsi(backend: (Op, nat) -> Reply) returns (result: Result<Answer, ModemError>)
      requires Valid() && worker.Busy? && worker.request.kind.Imsi? && worker.replies == []
      modifies this
      ensures Valid() && Transacted(old(View()), Transaction(Imsi, old(worker.request.call), backend, |old(log)|))
      ensures worker.replies != [] && result == Outcome(Imsi, worker.replies)
      ensures result.Ok? ==>
                && result.value.Content? && result.value.text != ""
                && forall i | 0 <= i < |result.value.text| :: '0' <= result.value.text[i] <= '9'
      ensures var reply := backend(Send("AT+CIMI", 3000), |old(log)|);
              result.Ok? <==> reply.Ok? && exists k :: 0 <= k < |Lines(reply.value)| && IsImsiLine(Lines(reply.value)[k])
    {
      var reply := Operate(CIMI, backend);
      assert worker.replies == Replies(Transaction(Imsi, worker.request.call, backend, |old(log)|));
      if reply.Err? { return Err(reply.error); }
      CimiIsDigits(reply.value);
      var imsi := ParseCimi(reply.value);
      if imsi.None? { return Err(Dbus("failed to parse IMSI from AT+CIMI response")); }
      result := Ok(Content(imsi.value));
    }

    /** The registration status: ask for the packet domain first, and for the circuit-switched one if that tells nothing. */
    method ReadRegistration(backend: (Op, nat) -> Reply) returns (result: Result<Answer, ModemError>)
      requires Valid() && worker.Busy? && worker.request.kind.RegistrationStatus? && worker.replies == []
      modifies this
      ensures Valid()
      ensures Transacted(old(View()), Transaction(RegistrationStatus, old(worker.request.call), backend, |old(log)|))
      ensures worker.replies != [] && result == Outcome(RegistrationStatus, worker.replies)
    {
      var first := Operate(CEREG, backend);
      if first.Ok? {
        var status := ParseRegistration(first.value);
        if status.Some? {
          assert worker.replies == Replies(Transaction(RegistrationStatus, worker.request.call, backend, |old(log)|));
          return Ok(Registration(status.value));
        }
      }
      var second := Operate(CREG, backend);
      ghost var block := Transaction(RegistrationStatus, worker.request.call, backend, |old(log)|);
      assert worker.replies == Replies(block) && log == old(log) + block;
      if second.Err? { return Err(second.error); }
      var status := ParseRegistration(second.value);
      if status.None? { return Err(Dbus("failed to parse registration status")); }
      result := Ok(Registration(status.value));
    }

    /** The worker takes the request at the head of the queue. */
    method Take() returns (request: Request)
      requires Valid() && worker.Idle? && queue != []
      modifies this
      ensures Valid() && View() == Next(old(View()), Dequeue) && worker == Busy(request, [])
    {
      request := queue[0];
      queue, worker := queue[1..], Busy(request, []);
      Took(Dequeue, old(View()));
    }

    method Respond(result: Result<Answer, ModemError>)
      requires Valid() && worker.Busy? && worker.replies != [] && NextOp(worker.request.kind, worker.replies).None?
      requires result == Outcome(worker.request.kind, worker.replies)
      modifies this
      ensures Valid() && View() == Next(old(View()), Finish)
    {
      var call := worker.request.call;
      if call < |callers| && callers[call].Waiting? { callers := callers[call := Got(result)]; }
      worker := Idle;
      Took(Finish, old(View()));
    }

    /** One turn of the worker: a whole transaction, with nothing of another request inside it, and one reply. */
    method Serve(backend: (Op, nat) -> Reply)
      requires Valid() && worker.Idle? && queue != []
      modifies this
      ensures Valid() && worker == Idle && submitted == old(submitted) && queue == old(queue)[1..]
      ensures var request := old(queue)[0];
              var block := Transaction(request.kind, request.call, backend, |old(log)|);
              && log == old(log) + block
              && callers == Deliver(old(callers), request.call, Outcome(request.kind, Replies(block)))
    {
      var request := Take();
      TransactionIsWhole(request.kind, request.call, backend, |log|);
      var result;
      match request.kind {
        case Model => result := ReadModelName(backend);
        case Command(cmd, timeoutMs) => result := SendCommand(cmd, timeoutMs, backend);
        case Imsi => result := ReadImsi(backend);
        case RegistrationStatus => result := ReadRegistration(backend);
      }
      Respond(result);
    }

    /** The worker is cancelled: it drops the queue and with it every reply that is due. */
    method Stop()
      requires Valid() && worker.Idle?
      modifies this
      ensures Valid() && View() == Next(old(View()), Shutdown)
    {
      DropReplies();
      worker := Exited;
      Took(Shutdown, old(View()));
    }

    method DropReplies()
      modifies `callers
      ensures callers == DropAll(old(callers), queue)
    {
      var i := 0;
      while i < |queue|
        invariant 0 <= i <= |queue|
        invariant DropAll(callers, queue[i..]) == DropAll(old(callers), queue)
      {
        assert queue[i..][0] == queue[i] && queue[i..][1..] == queue[i + 1..];
        var call := queue[i].call;
        if call < |callers| && callers[call].Waiting? { callers := callers[call := Got(DROPPED)]; }
        i := i + 1;
      }
    }
  }
}
