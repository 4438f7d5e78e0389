/** MQTT topics of a node: the builders, and the extraction of a command name from a topic. */
module Topics {
  import opened Wrappers
  import opened Text

  /** A segment with no topic separator, wildcard or NUL, as node id and prefix must be. */
  predicate ValidSegment(value: string) {
    value != "" && '+' !in value && '#' !in value && '/' !in value && '\U{0}' !in value
  }

  datatype Transport = Transport(envPrefix: string, nodeId: string) {
    predicate Valid() { ValidSegment(envPrefix) && ValidSegment(nodeId) }

    function CommandTopic(cmd: string, suffix: string): string {
      if cmd == "" && suffix == "" then envPrefix + "/nodes/" + nodeId + "/cmnd/"
      else if suffix == "" then envPrefix + "/nodes/" + nodeId + "/cmnd/" + cmd
      else envPrefix + "/nodes/" + nodeId + "/cmnd/" + cmd + "/" + suffix
    }

    function TelemetryTopic(name: string): string { envPrefix + "/nodes/" + nodeId + "/telemetry/" + name }

    function StatusTopic(): string { envPrefix + "/nodes/" + nodeId + "/status" }
  }

  /** The command name in a topic `{prefix}{name}/in`. */
  function ExtractCommandName(topic: string, prefix: string): Option<string> {
    if !StartsWith(topic, prefix) || !EndsWith(topic, "/in") then None
    else
      var remainder := topic[|prefix|..];
      if !EndsWith(remainder, "/in") then None
      else
        var name := remainder[..|remainder| - 3];
        if name == "" || '/' in name || '+' in name || '#' in name then None else Some(name)
  }

  predicate CommandName(name: string) {
    name != "" && '/' !in name && '+' !in name && '#' !in name
  }

  lemma BuiltIsExtracted(prefix: string, name: string)
    requires CommandName(name)
    ensures ExtractCommandName(prefix + name + "/in", prefix) == Some(name)
  {
    var topic := prefix + name + "/in";
    assert topic[|prefix|..] == name + "/in";
    assert topic[|topic| - 3..] == "/in";
  }

  /** Extraction inverts the topic builder, for every transport and every topic. */
  lemma ExtractExactly(t: Transport, topic: string, name: string)
    ensures ExtractCommandName(topic, t.CommandTopic("", "")) == Some(name)
            <==> CommandName(name) && topic == t.CommandTopic(name, "in")
  {
    var prefix := t.CommandTopic("", "");
    assert t.CommandTopic(name, "in") == prefix + name + "/in" by {
      assert prefix + name + "/" + "in" == prefix + name + "/in";
    }
    if CommandName(name) { BuiltIsExtracted(prefix, name); }
  }

  /** Edge case: the prefix followed by "in" ends with "/in" and is still not a command. */
  lemma PrefixPlusIn(t: Transport)
    ensures var topic := t.CommandTopic("", "") + "in";
      EndsWith(topic, "/in") && ExtractCommandName(topic, t.CommandTopic("", "")).None?
  {
    var topic := t.CommandTopic("", "") + "in";
    assert topic[|topic| - 3..] == "/in";
    assert topic[|t.CommandTopic("", "")|..] == "in";
  }

  /** What the processor itself publishes never comes back as a command. */
  lemma OwnTopicsAreNotCommands(t: Transport, cmd: string)
    ensures ExtractCommandName(t.CommandTopic(cmd, "status"), t.CommandTopic("", "")).None?
    ensures ExtractCommandName(t.CommandTopic(cmd, "result"), t.CommandTopic("", "")).None?
  {
    var status, result := t.CommandTopic(cmd, "status"), t.CommandTopic(cmd, "result");
    assert status[|status| - 1] == 's' && result[|result| - 1] == 't';
  }

  /** A segment is one that fills exactly one level and nothing else: valid segments are the
      non-empty texts without the separator, the wildcards and NUL. */
  lemma SegmentExactly(value: string)
    ensures ValidSegment(value) <==>
            value != "" && forall i | 0 <= i < |value| :: value[i] != '+' && value[i] != '#' && value[i] != '/' && value[i] != '\U{0}'
  {
  }

  /** No topic built from valid segments and plain names carries a wildcard or NUL, so publishing to
      it is allowed. */
  lemma {:induction false} BuiltTopicsArePlain(t: Transport, name: string, suffix: string, c: char)
    requires t.Valid() && (c == '+' || c == '#' || c == '\U{0}') && c !in name && c !in suffix
    ensures c !in t.CommandTopic(name, suffix) && c !in t.TelemetryTopic(name) && c !in t.StatusTopic()
  {
    Plain(t.envPrefix, "/nodes/", c);
    Plain(t.envPrefix + "/nodes/", t.nodeId, c);
    assert c !in "/nodes/" && c !in "/cmnd/" && c !in "/telemetry/" && c !in "/status" && c !in "/";
  }

  lemma Plain(a: string, b: string, c: char)
    ensures c in a + b <==> c in a || c in b
  {
  }

  // --- topics as levels ---

  function Levels(topic: string): seq<string> { Split(topic, '/') }

  /** The levels a command topic is meant to have. */
  function CommandLevels(t: Transport, cmd: string, suffix: string): seq<string> {
    [t.envPrefix, "nodes", t.nodeId, "cmnd", cmd] + if suffix == "" then [] else [suffix]
  }

  lemma JoinFive(a: string, b: string, c: string, d: string, e: string)
    ensures Join([a, b, c, d], '/') == a + "/" + b + "/" + c + "/" + d
    ensures Join([a, b, c, d, e], '/') == a + "/" + b + "/" + c + "/" + d + "/" + e
  {
    JoinSnoc([a], b, '/');
    JoinSnoc([a, b], c, '/');
    JoinSnoc([a, b, c], d, '/');
    JoinSnoc([a, b, c, d], e, '/');
    assert [a] + [b] == [a, b] && [a, b] + [c] == [a, b, c];
    assert [a, b, c] + [d] == [a, b, c, d] && [a, b, c, d] + [e] == [a, b, c, d, e];
  }

  lemma CommandTopicLevels(t: Transport, cmd: string, suffix: string)
    requires t.Valid() && '/' !in cmd && '/' !in suffix
    ensures Levels(t.CommandTopic(cmd, suffix)) == CommandLevels(t, cmd, suffix)
  {
    var levels := CommandLevels(t, cmd, suffix);
    JoinFive(t.envPrefix, "nodes", t.nodeId, "cmnd", cmd);
    JoinSnoc([t.envPrefix, "nodes", t.nodeId, "cmnd", cmd], suffix, '/');
    assert t.envPrefix + "/nodes/" + t.nodeId + "/cmnd/" == t.envPrefix + "/" + "nodes" + "/" + t.nodeId + "/" + "cmnd" + "/";
    assert t.CommandTopic("", "") + cmd == t.CommandTopic(cmd, "");
    assert t.CommandTopic("", "") + cmd + "/" + suffix == (if suffix == "" then t.CommandTopic(cmd, "") + "/" else t.CommandTopic(cmd, suffix));
    assert [t.envPrefix, "nodes", t.nodeId, "cmnd", cmd] + [] == [t.envPrefix, "nodes", t.nodeId, "cmnd", cmd];
    assert Join(levels, '/') == t.CommandTopic(cmd, suffix);
    SplitJoin(levels, '/');
  }

  /** Topic construction loses nothing: equal command topics have equal parts. */
  lemma CommandTopicInjective(t: Transport, u: Transport, cmd: string, suffix: string, cmd': string, suffix': string)
    requires t.Valid() && u.Valid()
    requires '/' !in cmd && '/' !in suffix && '/' !in cmd' && '/' !in suffix'
    requires t.CommandTopic(cmd, suffix) == u.CommandTopic(cmd', suffix')
    ensures t == u && cmd == cmd' && suffix == suffix'
  {
    CommandTopicLevels(t, cmd, suffix);
    CommandTopicLevels(u, cmd', suffix');
    var l := Levels(t.CommandTopic(cmd, suffix));
    assert l[0] == t.envPrefix == u.envPrefix && l[2] == t.nodeId == u.nodeId && l[4] == cmd == cmd';
    assert suffix != "" ==> l[5] == suffix;
    assert suffix' != "" ==> l[5] == suffix';
  }

  lemma TelemetryTopicLevels(t: Transport, name: string)
    requires t.Valid() && '/' !in name
    ensures Levels(t.TelemetryTopic(name)) == [t.envPrefix, "nodes", t.nodeId, "telemetry", name]
  {
    JoinFive(t.envPrefix, "nodes", t.nodeId, "telemetry", name);
    assert t.TelemetryTopic(name) == t.envPrefix + "/" + "nodes" + "/" + t.nodeId + "/" + "telemetry" + "/" + name;
    SplitJoin([t.envPrefix, "nodes", t.nodeId, "telemetry", name], '/');
  }

  lemma StatusTopicLevels(t: Transport)
    requires t.Valid()
    ensures Levels(t.StatusTopic()) == [t.envPrefix, "nodes", t.nodeId, "status"]
  {
    JoinFive(t.envPrefix, "nodes", t.nodeId, "status", "");
    assert t.StatusTopic() == t.envPrefix + "/" + "nodes" + "/" + t.nodeId + "/" + "status";
    SplitJoin([t.envPrefix, "nodes", t.nodeId, "status"], '/');
  }

  /** Telemetry and status topics of any node are never command topics of any node. */
  lemma TopicKindsDisjoint(t: Transport, u: Transport, name: string, cmd: string, suffix: string)
    requires t.Valid() && u.Valid() && '/' !in name && '/' !in cmd && '/' !in suffix
    ensures u.TelemetryTopic(name) != t.CommandTopic(cmd, suffix)
    ensures u.StatusTopic() != t.CommandTopic(cmd, suffix)
  {
    CommandTopicLevels(t, cmd, suffix);
    TelemetryTopicLevels(u, name);
    StatusTopicLevels(u);
    assert "telemetry"[0] != "cmnd"[0] && "status"[0] != "cmnd"[0];
    assert Levels(t.CommandTopic(cmd, suffix))[3] == "cmnd";
  }

  /** Topic filter matching of MQTT 3.1.1, section 4.7.1, on levels. */
  predicate Matches(filter: seq<string>, topic: seq<string>) {
    if filter == [] then topic == []
    else if filter == ["#"] then true
    else topic != [] && (filter[0] == "+" || filter[0] == topic[0]) && Matches(filter[1..], topic[1..])
  }

  lemma {:induction false} MatchesAt(filter: seq<string>, topic: seq<string>)
    requires "#" !in filter
    ensures Matches(filter, topic) <==>
              |filter| == |topic| && forall i | 0 <= i < |filter| :: filter[i] == "+" || filter[i] == topic[i]
  {
    if filter != [] && topic != [] {
      assert filter[0] in filter;
      MatchesAt(filter[1..], topic[1..]);
      if Matches(filter, topic) {
        forall i | 0 <= i < |filter| ensures filter[i] == "+" || filter[i] == topic[i] {
          if i > 0 { assert filter[1..][i - 1] == filter[i] && topic[1..][i - 1] == topic[i]; }
        }
      }
    }
  }

  /** The processor handles exactly what its subscription `cmnd/+/in` delivers: on topic names,
      which carry no wildcard, extraction succeeds iff the filter matches with a non-empty level. */
  lemma ExtractsWhatItSubscribes(t: Transport, topic: string)
    requires t.Valid() && '+' !in topic && '#' !in topic
    ensures ExtractCommandName(topic, t.CommandTopic("", "")).Some?
            <==> Matches(Levels(t.CommandTopic("+", "in")), Levels(topic)) && |Levels(topic)| == 6 && Levels(topic)[4] != ""
  {
    var filter, levels := Levels(t.CommandTopic("+", "in")), Levels(topic);
    CommandTopicLevels(t, "+", "in");
    MatchesAt(filter, levels);
    if ExtractCommandName(topic, t.CommandTopic("", "")).Some? {
      var name := ExtractCommandName(topic, t.CommandTopic("", "")).value;
      ExtractExactly(t, topic, name);
      CommandTopicLevels(t, name, "in");
    }
    if Matches(filter, levels) && |levels| == 6 && levels[4] != "" {
      var name := levels[4];
      assert filter[0] == levels[0] && filter[1] == levels[1] && filter[2] == levels[2] && filter[3] == levels[3] && filter[5] == levels[5];
      assert levels == CommandLevels(t, name, "in");
      CommandTopicLevels(t, name, "in");
      JoinSplit(topic, '/');
      JoinSplit(t.CommandTopic(name, "in"), '/');
      JoinKeeps(levels, '/', 4, '+');
      JoinKeeps(levels, '/', 4, '#');
      ExtractExactly(t, topic, name);
    }
  }

  /** Every character of a part is a character of the joined text. */
  lemma {:induction false} JoinKeeps(parts: seq<string>, c: char, i: nat, x: char)
    requires i < |parts|
    ensures x in parts[i] ==> x in Join(parts, c)
  {
    if i > 0 {
      JoinKeeps(parts[1..], c, i - 1, x);
    }
  }
}
