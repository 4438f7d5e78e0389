/** The simulated modem: what it prints is what the parsers read. */
module FakeModem {
  import opened Wrappers
  import opened Text
  import opened LteParsers

  /** `(n % m) as i32` shifted to be centred on zero by `half`. */
  function Drift(n: nat, m: nat, half: int): (d: int)
    requires m > 0
    ensures -half <= d < m - half
  {
    n % m - half
  }

  /** The drift sweeps its whole band one step at a time and starts over. */
  lemma DriftSweeps(n: nat, m: nat, half: int)
    requires m > 0
    ensures Drift(0, m, half) == -half
    ensures Drift(n + 1, m, half) == if Drift(n, m, half) == m - half - 1 then -half else Drift(n, m, half) + 1
  {
    var q, r := n / m, n % m;
    assert n == q * m + r;
    if r == m - 1 {
      assert n + 1 == (q + 1) * m;
      Remainder(q + 1, m, 0);
    } else {
      assert n + 1 == q * m + (r + 1);
      Remainder(q, m, r + 1);
    }
    Remainder(0, m, 0);
  }

  lemma Remainder(q: nat, m: nat, r: nat)
    requires r < m
    ensures (q * m + r) % m == r
  {
    var a := q * m + r;
    OneRemainder(q, r, a / m, a % m, m);
  }

  lemma OneRemainder(p: int, r: nat, q: int, s: nat, m: nat)
    requires p * m + r == q * m + s && r < m && s < m
    ensures r == s
  {
    var d := q - p;
    assert d * m == r - s;
    AtLeast(d, m);
  }

  lemma AtLeast(d: int, m: nat)
    ensures d > 0 ==> d * m >= m
    ensures d < 0 ==> d * m + m <= 0
  {
  }

  /** The comma-separated fields of the serving cell response for counter value `n`. */
  function ServingFields(n: nat): (fields: seq<string>)
    ensures |fields| == 20
  {
    ["+QENG: \"servingcell\"", "\"NOCONN\"", "\"LTE\"", "\"FDD\"", "001", "01", "\"1A2B3C4D\"",
     Show(250), Show(1850), "3", "5", "5", "\"1234\"",
     Show(-90 + Drift(n, 21, 10)), Show(-10 + Drift(n, 7, 3)), Show(-65 + Drift(n, 11, 5)), Show(5 + Drift(n, 11, 5)),
     "10", Show(-10 + Drift(n, 5, 0)), "42\r\nOK"]
  }

  function SynthServing(n: nat): string { Join(ServingFields(n), ',') }

  /** The two neighbours for counter value `n`, with distinct pcids. */
  function Neighbors(n: nat): (cells: seq<Cell>)
    ensures |cells| == 2 && cells[0].pcid == 100 && cells[1].pcid == 200
  {
    [Cell(100, -100 + Drift(n, 21, 10), -12 + Drift(n, 5, 2), -75 + Drift(n, 11, 5), 3 + Drift(n, 7, 3), 1850, 0),
     Cell(200, -105 + Drift(n, 21, 10), -14 + Drift(n, 5, 2), -80 + Drift(n, 11, 5), 1 + Drift(n, 7, 3), 1850, 0)]
  }

  /** The bands in which the two neighbours drift. */
  lemma NeighborBands(n: nat)
    ensures var a, b := Neighbors(n)[0], Neighbors(n)[1];
            && -110 <= a.rsrp <= -90 && -14 <= a.rsrq <= -10 && -80 <= a.rssi <= -70 && 0 <= a.rssnr <= 6
            && -115 <= b.rsrp <= -95 && -16 <= b.rsrq <= -12 && -85 <= b.rssi <= -75 && -2 <= b.rssnr <= 4
            && a.rsrp - b.rsrp == 5 && a.rsrq - b.rsrq == 2 && a.rssi - b.rssi == 5 && a.rssnr - b.rssnr == 2
            && a.earfcn == b.earfcn == 1850
  {
  }

  function NeighborFields(c: Cell): (fields: seq<string>)
    ensures |fields| == 12
  {
    ["+QENG: \"neighbourcell intra\"", "\"LTE\"", Show(c.earfcn), Show(c.pcid), Show(c.rsrq), Show(c.rsrp),
     Show(c.rssi), Show(c.rssnr), "5", "8", "-", "-"]
  }

  function NeighborLine(c: Cell): string { Join(NeighborFields(c), ',') }

  function NeighborLines(cells: seq<Cell>): (lines: seq<string>)
    ensures |lines| == |cells|
  {
    seq(|cells|, i requires 0 <= i < |cells| => NeighborLine(cells[i]))
  }

  /** A response: its lines, and a final OK. */
  function Response(lines: seq<string>): string {
    if lines == [] then "OK" else lines[0] + "\r\n" + Response(lines[1..])
  }

  function SynthNeighbors(cells: seq<Cell>): string { Response(NeighborLines(cells)) }

  const FAKE_IMSI := "001010123456789"

  /** What a command asks for; the first heading that fits decides. */
  datatype Query = ForNeighbours | ForServing | ForImsi | ForEpsRegistration | ForRegistration | ForNothing

  function Asks(cmd: string): Query {
    var c := Trim(cmd);
    if StartsWith(c, "AT+QENG=\"neighbourcell\"") then ForNeighbours
    else if StartsWith(c, "AT+QENG=\"servingcell\"") then ForServing
    else if StartsWith(c, "AT+CIMI") then ForImsi
    else if StartsWith(c, "AT+CEREG?") then ForEpsRegistration
    else if StartsWith(c, "AT+CREG?") then ForRegistration
    else ForNothing
  }

  /** What a command is answered with, the counter standing at `n` after it. */
  function Respond(query: Query, n: nat): string {
    match query
    case ForNeighbours => SynthNeighbors(Neighbors(n))
    case ForServing => SynthServing(n)
    case ForImsi => FAKE_IMSI + "\r\nOK"
    case ForEpsRegistration => "+CEREG: 0,1" + "\r\nOK"
    case ForRegistration => "+CREG: 0,1" + "\r\nOK"
    case ForNothing => "OK"
  }

  /** Only the two cell queries use the counter. */
  predicate UsesCounter(query: Query) { query.ForNeighbours? || query.ForServing? }

  lemma PlainCommand(cmd: string)
    requires cmd != "" && !IsSpace(cmd[0]) && !IsSpace(cmd[|cmd| - 1])
    ensures Trim(cmd) == cmd
  {
    TrimFixed(IsSpace, cmd);
  }

  /** Every command the unit sends is recognised. */
  lemma CommandsAreRecognised()
    ensures Asks("AT+QENG=\"neighbourcell\"") == ForNeighbours && Asks("AT+QENG=\"servingcell\"") == ForServing
    ensures Asks("AT+CIMI") == ForImsi && Asks("AT+CEREG?") == ForEpsRegistration && Asks("AT+CREG?") == ForRegistration
  {
    PlainCommand("AT+QENG=\"neighbourcell\"");
    PlainCommand("AT+QENG=\"servingcell\"");
    PlainCommand("AT+CIMI");
    PlainCommand("AT+CEREG?");
    PlainCommand("AT+CREG?");
    assert "AT+CEREG?"[4] != "AT+CIMI"[4] && "AT+CREG?"[4] != "AT+CIMI"[4];
  }

  class FakeModemAccess {
    var counter: nat

    constructor ()
      ensures counter == 0
    {
      counter := 0;
    }

    method NextCounter() returns (n: nat)
      modifies this
      ensures n == counter == old(counter) + 1
    {
      counter := counter + 1;
      n := counter;
    }

    method Command(cmd: string) returns (out: string)
      modifies this
      ensures counter == if UsesCounter(Asks(cmd)) then old(counter) + 1 else old(counter)
      ensures out == Respond(Asks(cmd), counter)
    {
      var c := Trim(cmd);
      if StartsWith(c, "AT+QENG=\"neighbourcell\"") {
        out := SynthNeighbourcell();
        return;
      }
      if StartsWith(c, "AT+QENG=\"servingcell\"") {
        out := SynthServingcell();
        return;
      }
      if StartsWith(c, "AT+CIMI") { return FAKE_IMSI + "\r\nOK"; }
      if StartsWith(c, "AT+CEREG?") { return "+CEREG: 0,1" + "\r\nOK"; }
      if StartsWith(c, "AT+CREG?") { return "+CREG: 0,1" + "\r\nOK"; }
      out := "OK";
    }

    method SynthServingcell() returns (out: string)
      modifies this
      ensures counter == old(counter) + 1 && out == SynthServing(counter)
    {
      var n := NextCounter();
      out := SynthServing(n);
    }

    method SynthNeighbourcell() returns (out: string)
      modifies this
      ensures counter == old(counter) + 1 && out == SynthNeighbors(Neighbors(counter))
    {
      var n := NextCounter();
      var cells := Neighbors(n);
      out := "";
      ghost var lines := NeighborLines(cells);
      for k := 0 to |cells|
        invariant counter == n
        invariant out + Response(lines[k..]) == Response(lines)
      {
        assert lines[k..][1..] == lines[k + 1..];
        out := out + (NeighborLine(cells[k]) + "\r\n");
      }
      out := out + "OK";
    }
  }

  // --- the printed text ---

  predicate InBand(s: Signal) {
    -100 <= s.rsrp <= -80 && -13 <= s.rsrq <= -7 && -70 <= s.rssi <= -60 && 0 <= s.rssnr <= 10 && -10 <= s.txPower <= -6
  }

  /** The signal for counter value `n`. */
  function ServingSignal(n: nat): (s: Signal)
    ensures InBand(s) && s.pcid == 250
  {
    Signal(rsrq := -10 + Drift(n, 7, 3), rsrp := -90 + Drift(n, 21, 10), rssi := -65 + Drift(n, 11, 5),
           rssnr := 5 + Drift(n, 11, 5), earfcn := 1850, txPower := -10 + Drift(n, 5, 0), pcid := 250)
  }

  /** Serving cell round trip: for every counter value the EM12 parser reads back exactly the
      printed signal, and it lies in its bands. */
  lemma ServingRoundTrip(n: nat)
    ensures ParseServingCell(QuectelEm12, SynthServing(n)) == Some(ServingSignal(n)) && InBand(ServingSignal(n))
  {
    ServingText(n);
    SignalFromParts(QuectelEm12, SynthServing(n), ServingFields(n), ServingSignal(n));
  }

  lemma {:induction false} ServingText(n: nat)
    ensures Contains(SynthServing(n), "servingcell") && Split(SynthServing(n), ',') == ServingFields(n)
  {
    var fields := ServingFields(n);
    assert fields[0][8..][..11] == "servingcell";
    HeadContains(fields, "servingcell");
    forall i | 0 <= i < |fields| ensures ',' !in fields[i] { ServingFieldPlain(n, i); }
    SplitJoin(fields, ',');
  }

  lemma ServingFieldPlain(n: nat, i: nat)
    requires i < 20
    ensures ',' !in ServingFields(n)[i]
  {
  }

  lemma {:induction false} NeighborLineRoundTrip(c: Cell)
    requires IsI32Cell(c)
    ensures ParseNeighbor(NeighborLine(c)) == Some(c.(lastSeen := 0))
    ensures '\n' !in NeighborLine(c)
  {
    NeighborText(c);
    CellFromParts(NeighborLine(c), NeighborFields(c), c);
  }

  lemma NeighborText(c: Cell)
    ensures Contains(NeighborLine(c), "neighbourcell") && Split(NeighborLine(c), ',') == NeighborFields(c)
    ensures '\n' !in NeighborLine(c)
  {
    var fields := NeighborFields(c);
    assert fields[0][8..][..13] == "neighbourcell";
    HeadContains(fields, "neighbourcell");
    forall i | 0 <= i < |fields| ensures ',' !in fields[i] && '\n' !in fields[i] { NeighborFieldPlain(c, i); }
    SplitJoin(fields, ',');
    JoinLacks(fields, ',', '\n');
  }

  lemma LiteralPlain(s: string)
    requires s == "+QENG: \"neighbourcell intra\"" || s == "\"LTE\"" || s == "5" || s == "8" || s == "-"
    ensures ',' !in s && '\n' !in s
  {
  }

  lemma NeighborFieldPlain(c: Cell, i: nat)
    requires i < 12
    ensures ',' !in NeighborFields(c)[i] && '\n' !in NeighborFields(c)[i]
  {
    if i < 2 || 8 <= i {
      var f := NeighborFields(c);
      assert i == 0 || i == 1 || i == 8 || i == 9 || i == 10 || i == 11;
      LiteralPlain(f[i]);
    }
  }

  /** What is there, in order. */
  function Present<T>(os: seq<Option<T>>): seq<T> {
    if os == [] then []
    else
      var front, last := Present(os[..|os| - 1]), os[|os| - 1];
      if last.None? then front else front + [last.value]
  }

  lemma PresentAppend<T>(os: seq<Option<T>>, o: Option<T>)
    ensures Present(os + [o]) == if o.None? then Present(os) else Present(os) + [o.value]
  {
    assert (os + [o])[..|os|] == os;
  }

  function ParseEach<T>(parse: string -> Option<T>, lines: seq<string>): (os: seq<Option<T>>)
    ensures |os| == |lines| && forall i | 0 <= i < |lines| :: os[i] == parse(lines[i])
  {
    seq(|lines|, i requires 0 <= i < |lines| => parse(lines[i]))
  }

  lemma TwoPresent<T>(parse: string -> Option<T>, a: string, b: string, c: string, x: T, y: T)
    requires parse(a) == Some(x) && parse(b) == Some(y) && parse(c) == None
    ensures Present(ParseEach(parse, [a, b, c])) == [x, y]
  {
    var none: seq<Option<T>> := [];
    PresentAppend(none, Some(x));
    PresentAppend(none + [Some(x)], Some(y));
    PresentAppend(none + [Some(x)] + [Some(y)], None);
    assert ParseEach(parse, [a, b, c]) == none + [Some(x)] + [Some(y)] + [None];
  }

  /** The cells that the lines of a response describe, in order. */
  function CellsIn(lines: seq<string>): seq<Cell> { Present(ParseEach(ParseNeighbor, lines)) }

  lemma CellsInAppend(lines: seq<string>, line: string)
    ensures var parsed := ParseNeighbor(line);
            CellsIn(lines + [line]) == if parsed.None? then CellsIn(lines) else CellsIn(lines) + [parsed.value]
  {
    var parsed, before := ParseNeighbor(line), ParseEach(ParseNeighbor, lines);
    assert ParseEach(ParseNeighbor, lines + [line]) == before + [parsed];
    PresentAppend(before, parsed);
  }

  /** Neighbour round trip: the response is exactly three lines, and they describe exactly the
      two printed cells. */
  lemma {:induction false} NeighborRoundTrip(n: nat)
    ensures CellsIn(Lines(SynthNeighbors(Neighbors(n)))) == Neighbors(n)
  {
    var cells := Neighbors(n);
    SynthIsThreeLines(cells);
    NeighborLineRoundTrip(cells[0]);
    NeighborLineRoundTrip(cells[1]);
    assert !Contains("OK", "neighbourcell");
    TwoPresent(ParseNeighbor, NeighborLine(cells[0]), NeighborLine(cells[1]), "OK", cells[0], cells[1]);
    assert [cells[0], cells[1]] == cells;
  }

  lemma SynthIsThreeLines(cells: seq<Cell>)
    requires |cells| == 2
    ensures Lines(SynthNeighbors(cells)) == [NeighborLine(cells[0]), NeighborLine(cells[1]), "OK"]
  {
    var a, b := NeighborLine(cells[0]), NeighborLine(cells[1]);
    NeighborText(cells[0]);
    NeighborText(cells[1]);
    assert NeighborLines(cells) == [a, b];
    ResponseOfTwo(a, b);
    ThreeLinesOf(a, b);
  }

  lemma ResponseOfTwo(a: string, b: string)
    ensures Response([a, b]) == a + "\r\n" + (b + "\r\n" + "OK")
  {
    assert [a, b][1..] == [b] && [b][1..] == [];
    assert Response([]) == "OK";
    assert Response([b]) == b + "\r\n" + "OK";
  }

  lemma ThreeLinesOf(a: string, b: string)
    requires '\n' !in a && '\n' !in b
    ensures Lines(a + "\r\n" + (b + "\r\n" + "OK")) == [a, b, "OK"]
  {
    LinesHead(a, b + "\r\n" + "OK");
    LinesHead(b, "OK");
    assert Lines("OK") == ["OK"] by { assert '\n' !in "OK"; }
    assert [b] + ["OK"] == [b, "OK"] && [a] + [b, "OK"] == [a, b, "OK"];
  }
}
