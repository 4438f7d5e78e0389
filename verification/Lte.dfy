/** LTE readings: the AT response parsers, and what they make of printed responses. */
module LteParsers {
  import opened Wrappers
  import opened Text

  datatype ModemType = Simcom7600 | QuectelEm12 | QuectelEm06E | QuectelEm06GL

  datatype Signal = Signal(rsrq: int, rsrp: int, rssi: int, rssnr: int, earfcn: int, txPower: int, pcid: int)

  datatype Cell = Cell(pcid: int, rsrp: int, rsrq: int, rssi: int, rssnr: int, earfcn: int, lastSeen: nat)

  /** A field as a 32-bit integer, 0 when it is not one. */
  function ParseField(s: string): int {
    match ParseI32(TrimBy(IsQuote, Trim(s)))
    case Some(n) => n
    case None => 0
  }

  /** SIMCOM `AT+CPSI?`; the three power values are in tenths and truncated. */
  function ParseSimcom(response: string): Option<Signal> {
    var sections := Split(response, ':');
    if |sections| < 2 then None
    else
      var parts := Split(Trim(sections[1]), ',');
      if |parts| < 14 then None
      else Some(Signal(
        rsrq := Tenth(ParseField(parts[10])), rsrp := Tenth(ParseField(parts[11])),
        rssi := Tenth(ParseField(parts[12])), rssnr := ParseField(parts[13]),
        earfcn := ParseField(parts[7]), txPower := 0, pcid := ParseField(parts[5])))
  }

  /** Quectel `AT+QENG="servingcell"`: a minimum field count per model, and the place of the
      transmit power where the model reports it. */
  function ParseQuectelServing(response: string, fields: nat, txPowerAt: Option<nat>): Option<Signal>
    requires fields >= 18 && (txPowerAt.Some? ==> txPowerAt.value < fields)
  {
    if !Contains(response, "servingcell") then None
    else
      var parts := Split(response, ',');
      if |parts| < fields then None
      else Some(Signal(
        rsrq := ParseField(parts[14]), rsrp := ParseField(parts[13]), rssi := ParseField(parts[15]),
        rssnr := ParseField(parts[16]), earfcn := ParseField(parts[8]),
        txPower := if txPowerAt.Some? then ParseField(parts[txPowerAt.value]) else 0,
        pcid := ParseField(parts[7])))
  }

  function ParseServingCell(modem: ModemType, response: string): Option<Signal> {
    match modem
    case Simcom7600 => ParseSimcom(response)
    case QuectelEm12 => ParseQuectelServing(response, 20, Some(18))
    case QuectelEm06GL => ParseQuectelServing(response, 19, Some(17))
    case QuectelEm06E => ParseQuectelServing(response, 18, None)
  }

  /** One line of `AT+QENG="neighbourcell"`; the caller stamps the time. */
  function ParseNeighbor(line: string): Option<Cell> {
    if !Contains(line, "neighbourcell") then None
    else
      var parts := Split(line, ',');
      if |parts| < 8 then None
      else Some(Cell(
        pcid := ParseField(parts[3]), rsrp := ParseField(parts[5]), rsrq := ParseField(parts[4]),
        rssi := ParseField(parts[6]), rssnr := ParseField(parts[7]), earfcn := ParseField(parts[2]),
        lastSeen := 0))
  }

  predicate SupportsNeighborQuery(modem: ModemType) { modem.QuectelEm12? }

  /** A printed integer is read back. */
  lemma FieldOfShown(n: int)
    requires IsI32(n)
    ensures ParseField(Show(n)) == n
  {
    ParseShow(n);
    TrimFixed(IsSpace, Show(n));
    TrimFixed(IsQuote, Show(n));
  }

  /** It is also read back when it is quoted and padded. */
  lemma FieldOfPadded(n: int)
    requires IsI32(n)
    ensures ParseField(" \"" + Show(n) + "\" ") == n
  {
    ParseShow(n);
    Unpadded(Show(n));
  }

  /** A field with a character that is no digit, sign, quote or white space is read as 0. */
  lemma JunkIsZero(s: string, c: char)
    requires c in s && !('0' <= c <= '9') && c != '+' && c != '-' && c != '"' && !IsSpace(c)
    ensures ParseField(s) == 0
  {
    TrimKeeps(IsSpace, s, c);
    TrimKeeps(IsQuote, Trim(s), c);
    var t := TrimBy(IsQuote, Trim(s));
    if ParseI32(t).Some? {
      ReadIsDigits(t, I32_MIN, I32_MAX);
    }
  }

  /** So are an empty field, a lone dash, as the modem prints for a missing value, and a number that
      32 bits do not hold. */
  lemma MissingIsZero(n: int)
    ensures ParseField("") == 0 && ParseField("-") == 0
    ensures !IsI32(n) ==> ParseField(Show(n)) == 0
  {
    TrimFixed(IsSpace, "-");
    TrimFixed(IsQuote, "-");
    assert "-"[1..] == "";
    if !IsI32(n) {
      TrimFixed(IsSpace, Show(n));
      TrimFixed(IsQuote, Show(n));
      OutOfRange(n, I32_MIN, I32_MAX);
    }
  }

  lemma Unpadded(s: string)
    requires s != "" && !IsSpace(s[0]) && !IsSpace(s[|s| - 1]) && !IsQuote(s[0]) && !IsQuote(s[|s| - 1])
    ensures TrimBy(IsQuote, Trim(" \"" + s + "\" ")) == s
  {
    TrimFixed(IsSpace, s);
    TrimFixed(IsQuote, s);
    var q := "\"" + s + "\"";
    var p := " \"" + s + "\" ";
    assert p[0] == ' ' && p[1..] == q + " ";
    assert TrimStart(IsSpace, q + " ") == q + " ";
    assert TrimStart(IsSpace, p) == q + " ";
    assert (q + " ")[..|q|] == q && TrimEnd(IsSpace, q) == q;
    assert Trim(p) == q;
    assert q[1..] == s + "\"" && TrimStart(IsQuote, s + "\"") == s + "\"";
    assert (s + "\"")[..|s|] == s;
  }

  // --- printed responses ---

  lemma ContainsInPrefix(a: string, b: string, sub: string)
    requires Contains(a, sub)
    ensures Contains(a + b, sub)
  {
    var i :| 0 <= i <= |a| - |sub| && a[i..][..|sub|] == sub;
    assert (a + b)[i..][..|sub|] == a[i..][..|sub|];
  }

  lemma HeadContains(fields: seq<string>, sub: string)
    requires |fields| > 1 && Contains(fields[0], sub)
    ensures Contains(Join(fields, ','), sub)
  {
    var rest := [','] + Join(fields[1..], ',');
    ContainsInPrefix(fields[0], rest, sub);
    assert Join(fields, ',') == fields[0] + rest;
  }

  predicate IsI32Signal(s: Signal) {
    && IsI32(s.rsrq) && IsI32(s.rsrp) && IsI32(s.rssi) && IsI32(s.rssnr)
    && IsI32(s.earfcn) && IsI32(s.txPower) && IsI32(s.pcid)
  }

  /** How many fields a Quectel serving cell response has, by model. */
  function ServingFieldCount(modem: ModemType): nat {
    match modem
    case Simcom7600 => 14
    case QuectelEm12 => 20
    case QuectelEm06GL => 19
    case QuectelEm06E => 18
  }

  /** The fields of a Quectel response that carry the signal: cqi only on EM12, tx_power only on EM12 and EM06GL. */
  predicate CarriesSignal(modem: ModemType, parts: seq<string>, s: Signal) {
    && !modem.Simcom7600? && |parts| >= ServingFieldCount(modem)
    && parts[7] == Show(s.pcid) && parts[8] == Show(s.earfcn)
    && parts[13] == Show(s.rsrp) && parts[14] == Show(s.rsrq) && parts[15] == Show(s.rssi) && parts[16] == Show(s.rssnr)
    && match modem
       case Simcom7600 => false
       case QuectelEm12 => parts[18] == Show(s.txPower)
       case QuectelEm06GL => parts[17] == Show(s.txPower)
       case QuectelEm06E => s.txPower == 0
  }

  lemma {:induction false} SignalFromParts(modem: ModemType, text: string, parts: seq<string>, s: Signal)
    requires Contains(text, "servingcell") && Split(text, ',') == parts
    requires CarriesSignal(modem, parts, s) && IsI32Signal(s)
    ensures ParseServingCell(modem, text) == Some(s)
  {
    FieldOfShown(s.pcid);
    FieldOfShown(s.earfcn);
    FieldOfShown(s.rsrp);
    FieldOfShown(s.rsrq);
    FieldOfShown(s.rssi);
    FieldOfShown(s.rssnr);
    FieldOfShown(s.txPower);
  }

  /** On every Quectel model, a response that carries a signal is parsed back to exactly that signal. */
  lemma {:induction false} QuectelRoundTrip(modem: ModemType, parts: seq<string>, s: Signal)
    requires CarriesSignal(modem, parts, s) && IsI32Signal(s)
    requires Contains(parts[0], "servingcell") && forall i | 0 <= i < |parts| :: ',' !in parts[i]
    ensures ParseServingCell(modem, Join(parts, ',')) == Some(s)
  {
    HeadContains(parts, "servingcell");
    SplitJoin(parts, ',');
    SignalFromParts(modem, Join(parts, ','), parts, s);
  }

  /** A response cut short of its model's field count is not read at all. */
  lemma ShortServingIsRefused(modem: ModemType, parts: seq<string>)
    requires !modem.Simcom7600? && 1 <= |parts| < ServingFieldCount(modem) && forall i | 0 <= i < |parts| :: ',' !in parts[i]
    ensures ParseServingCell(modem, Join(parts, ',')).None?
  {
    SplitJoin(parts, ',');
  }

  /** The fields of a SIMCOM response that carry the signal. */
  predicate CarriesSimcom(parts: seq<string>, s: Signal) {
    && |parts| >= 14 && parts[5] == Show(s.pcid) && parts[7] == Show(s.earfcn) && parts[10] == Show(s.rsrq)
    && parts[11] == Show(s.rsrp) && parts[12] == Show(s.rssi) && parts[13] == Show(s.rssnr) && s.txPower == 0
  }

  lemma {:induction false} SimcomFromParts(text: string, sections: seq<string>, parts: seq<string>, s: Signal)
    requires Split(text, ':') == sections && |sections| == 2 && Split(Trim(sections[1]), ',') == parts
    requires CarriesSimcom(parts, s) && IsI32Signal(s)
    ensures ParseSimcom(text) == Some(s.(rsrq := Tenth(s.rsrq), rsrp := Tenth(s.rsrp), rssi := Tenth(s.rssi)))
  {
    FieldOfShown(s.pcid);
    FieldOfShown(s.earfcn);
    FieldOfShown(s.rsrq);
    FieldOfShown(s.rsrp);
    FieldOfShown(s.rssi);
    FieldOfShown(s.rssnr);
  }

  /** A response without a colon, or with fewer fields than the SIMCOM model sends, is refused too. */
  lemma ShortSimcomIsRefused(head: string, parts: seq<string>)
    requires ':' !in head
    ensures ParseServingCell(Simcom7600, head).None?
    ensures 1 <= |parts| < 14 && (forall i | 0 <= i < |parts| :: ',' !in parts[i] && ':' !in parts[i])
            && Trim(" " + Join(parts, ',')) == Join(parts, ',') ==>
              ParseServingCell(Simcom7600, head + ": " + Join(parts, ',')).None?
  {
    SplitWhole(head, ':');
    if 1 <= |parts| < 14 && forall i | 0 <= i < |parts| :: ',' !in parts[i] && ':' !in parts[i] {
      JoinLacks(parts, ',', ':');
      TwoSections(head, Join(parts, ','));
      SplitJoin(parts, ',');
    }
  }

  /** Quectel responses of another kind are not read. */
  lemma OtherKindIsRefused(modem: ModemType, text: string)
    requires !modem.Simcom7600? && forall i | 0 <= i <= |text| - 11 :: text[i..][..11] != "servingcell"
    ensures ParseServingCell(modem, text).None?
  {
  }

  /** A neighbour line of another kind, or with fewer than eight fields, describes no cell. */
  lemma OtherLineIsRefused(line: string, parts: seq<string>)
    ensures (forall i | 0 <= i <= |line| - 13 :: line[i..][..13] != "neighbourcell") ==> ParseNeighbor(line).None?
    ensures 1 <= |parts| < 8 && (forall i | 0 <= i < |parts| :: ',' !in parts[i]) ==> ParseNeighbor(Join(parts, ',')).None?
  {
    if 1 <= |parts| < 8 && forall i | 0 <= i < |parts| :: ',' !in parts[i] {
      SplitJoin(parts, ',');
    }
  }

  predicate IsI32Cell(c: Cell) {
    IsI32(c.pcid) && IsI32(c.rsrp) && IsI32(c.rsrq) && IsI32(c.rssi) && IsI32(c.rssnr) && IsI32(c.earfcn)
  }

  /** The fields of a neighbour line that carry the cell; there may be more after them. */
  predicate CarriesCell(parts: seq<string>, c: Cell) {
    && |parts| >= 8 && parts[2] == Show(c.earfcn) && parts[3] == Show(c.pcid) && parts[4] == Show(c.rsrq)
    && parts[5] == Show(c.rsrp) && parts[6] == Show(c.rssi) && parts[7] == Show(c.rssnr)
  }

  lemma {:induction false} CellFromParts(line: string, parts: seq<string>, c: Cell)
    requires Contains(line, "neighbourcell") && Split(line, ',') == parts && CarriesCell(parts, c) && IsI32Cell(c)
    ensures ParseNeighbor(line) == Some(c.(lastSeen := 0))
  {
    FieldOfShown(c.pcid);
    FieldOfShown(c.rsrp);
    FieldOfShown(c.rsrq);
    FieldOfShown(c.rssi);
    FieldOfShown(c.rssnr);
    FieldOfShown(c.earfcn);
  }

  /** A neighbour line of eight fields or more is read back to the cell it carries. */
  lemma {:induction false} CellRoundTrip(parts: seq<string>, c: Cell)
    requires CarriesCell(parts, c) && IsI32Cell(c)
    requires Contains(parts[0], "neighbourcell") && forall i | 0 <= i < |parts| :: ',' !in parts[i]
    ensures ParseNeighbor(Join(parts, ',')) == Some(c.(lastSeen := 0))
  {
    HeadContains(parts, "neighbourcell");
    SplitJoin(parts, ',');
    CellFromParts(Join(parts, ','), parts, c);
  }

  /**
    * SIMCOM: rsrq, rsrp and rssi come back as tenths of the printed numbers,
    * everything else as printed.
    */
  lemma {:induction false} SimcomRoundTrip(head: string, parts: seq<string>, s: Signal)
    requires CarriesSimcom(parts, s) && IsI32Signal(s)
    requires ':' !in head && forall i | 0 <= i < |parts| :: ',' !in parts[i] && ':' !in parts[i]
    requires Trim(" " + Join(parts, ',')) == Join(parts, ',')
    ensures ParseServingCell(Simcom7600, head + ": " + Join(parts, ',')) ==
              Some(s.(rsrq := Tenth(s.rsrq), rsrp := Tenth(s.rsrp), rssi := Tenth(s.rssi)))
  {
    var joined := Join(parts, ',');
    JoinLacks(parts, ',', ':');
    SplitJoin(parts, ',');
    TwoSections(head, joined);
    SimcomFromParts(head + ": " + joined, [head, " " + joined], parts, s);
  }

  lemma {:induction false} TwoSections(head: string, joined: string)
    requires ':' !in head && ':' !in joined
    ensures Split(head + ": " + joined, ':') == [head, " " + joined]
  {
    assert head + ": " + joined == head + [':'] + (" " + joined);
    SplitHead(head, ':', " " + joined);
    SplitWhole(" " + joined, ':');
  }

  lemma {:induction false} JoinLacks(parts: seq<string>, c: char, x: char)
    requires |parts| >= 1 && x != c && forall i | 0 <= i < |parts| :: x !in parts[i]
    ensures x !in Join(parts, c)
  {
    if |parts| > 1 {
      JoinLacks(parts[1..], c, x);
    }
  }
}
