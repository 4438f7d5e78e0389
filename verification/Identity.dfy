/** Which MAVLink system id the unit takes for itself, while it hears its own traffic. */
module Identity {
  import opened Wrappers

  type Byte = x: int | 0 <= x < 256

  const FC_SYSID_THRESHOLD: Byte := 200

  datatype Config = Config(self: Byte, sniffer: Byte, bs: Byte, gcs: Byte) {
    /** The checks of the configuration loader on these ids; 0 asks for autodiscovery. */
    predicate Valid() {
      && (self != 0 ==> self != sniffer && self != bs && self != gcs)
      && sniffer != bs && gcs != sniffer && gcs != bs
    }

    predicate Auto() { self == 0 }

    predicate Internal(id: Byte) { id == sniffer || id == bs || id == gcs }
  }

  /** Which configurations pass: the unit's three other ids are three, and its own is left open or
      is none of them. */
  lemma ValidExactly(cfg: Config)
    ensures cfg.Valid() <==>
            |{cfg.sniffer, cfg.bs, cfg.gcs}| == 3 && (cfg.self == 0 || cfg.self !in {cfg.sniffer, cfg.bs, cfg.gcs})
  {
    var three := {cfg.sniffer, cfg.bs, cfg.gcs};
    if cfg.sniffer == cfg.bs { assert three == {cfg.bs, cfg.gcs}; }
    if cfg.sniffer == cfg.gcs { assert three == {cfg.bs, cfg.gcs}; }
    if cfg.bs == cfg.gcs { assert three == {cfg.sniffer, cfg.bs}; }
  }

  predicate IsFc(id: Byte) { 0 < id < FC_SYSID_THRESHOLD }

  function FcIds(systems: set<Byte>): set<Byte> { set id | id in systems && IsFc(id) }

  ghost predicate IsLeast(m: Byte, s: set<Byte>) { m in s && forall x | x in s :: m <= x }

  lemma {:induction false} LeastExists(s: set<Byte>)
    requires s != {}
    ensures exists m :: IsLeast(m, s)
  {
    var x :| x in s;
    if s != {x} {
      LeastExists(s - {x});
      var m :| IsLeast(m, s - {x});
      assert forall y | y in s :: y == x || y in s - {x};
      assert IsLeast(if x <= m then x else m, s);
    } else {
      assert IsLeast(x, s);
    }
  }

  /** What resolving the own id may answer. */
  ghost predicate Resolves(cfg: Config, systems: set<Byte>, id: Option<Byte>) {
    if !cfg.Auto() then id == Some(cfg.self)
    else match id
      case None => FcIds(systems) == {}
      case Some(v) => IsLeast(v, FcIds(systems))
  }

  /** The ids after a heartbeat: those of the unit's own components are ignored. */
  function Heard(cfg: Config, systems: set<Byte>, id: Byte): set<Byte> {
    if cfg.Internal(id) then systems else systems + {id}
  }

  class Context {
    const cfg: Config
    var availableSystems: set<Byte>

    constructor (cfg: Config)
      ensures this.cfg == cfg && availableSystems == {}
    {
      this.cfg, availableSystems := cfg, {};
    }

    method AddSystem(id: Byte) returns (isNew: bool)
      modifies this
      ensures availableSystems == old(availableSystems) + {id}
      ensures isNew <==> id !in old(availableSystems)
    {
      isNew := id !in availableSystems;
      availableSystems := availableSystems + {id};
    }

    method HandleHeartbeat(id: Byte)
      modifies this
      ensures availableSystems == Heard(cfg, old(availableSystems), id)
    {
      if id == cfg.sniffer || id == cfg.bs || id == cfg.gcs {
        return;
      }
      var _ := AddSystem(id);
    }

    method SelfSysid() returns (id: Option<Byte>)
      ensures Resolves(cfg, availableSystems, id)
      ensures cfg.self > 0 ==> id == Some(cfg.self)
      ensures cfg.self == 0 ==>
                match id
                case None => forall x | x in availableSystems :: !(0 < x < 200)
                case Some(v) => v in availableSystems && 0 < v < 200 && forall x | x in availableSystems && 0 < x < 200 :: v <= x
    {
      if cfg.self > 0 {
        return Some(cfg.self);
      }
      var ids := FcIds(availableSystems);
      assert forall x | x in availableSystems && 0 < x < 200 :: x in ids;
      var rest := ids;
      id := None;
      while rest != {}
        invariant rest <= ids
        invariant id.None? ==> rest == ids
        invariant id.Some? ==> id.value in ids && forall x | x in ids :: x in rest || id.value <= x
        decreases |rest|
      {
        var x :| x in rest;
        if id.None? || x < id.value {
          id := Some(x);
        }
        rest := rest - {x};
      }
    }
  }

  // --- the tasks ---

  /** The drone heartbeat task waits for a flight controller, resolves its id, waits once more
      inside the loop it shares with the sniffer, and beats. */
  datatype Drone =
    | Waiting
    | Resolving
    | Armed(id: Byte)
    | Beating(id: Byte)
    | Unresolved

  datatype State = State(
    systems: set<Byte>,
    external: set<Byte>,
    emitted: set<Byte>,
    drone: Drone,
    snifferBeats: bool,
    reported: seq<Byte>)

  const INIT := State({}, {}, {}, Waiting, false, [])

  datatype Action =
    | HearExternal(id: Byte)
    | HearEcho(id: Byte)
    | DroneSeesFc
    | DroneResolves(resolved: Option<Byte>)
    | DroneStarts
    | DroneBeats
    | SnifferStarts
    | SnifferBeats
    | Report(resolved: Option<Byte>)

  ghost predicate Enabled(cfg: Config, s: State, a: Action) {
    match a
    case HearExternal(_) => true
    case HearEcho(id) => id in s.emitted
    case DroneSeesFc => s.drone.Waiting? && FcIds(s.systems) != {}
    case DroneResolves(id) => s.drone.Resolving? && Resolves(cfg, s.systems, id)
    case DroneStarts => s.drone.Armed? && FcIds(s.systems) != {}
    case DroneBeats => s.drone.Beating?
    case SnifferStarts => !s.snifferBeats && FcIds(s.systems) != {}
    case SnifferBeats => s.snifferBeats
    case Report(id) => Resolves(cfg, s.systems, id)
  }

  ghost function Next(cfg: Config, s: State, a: Action): State
    requires Enabled(cfg, s, a)
  {
    match a
    case HearExternal(id) => s.(systems := Heard(cfg, s.systems, id), external := s.external + {id})
    case HearEcho(id) => s.(systems := Heard(cfg, s.systems, id))
    case DroneSeesFc => s.(drone := Resolving)
    case DroneResolves(id) => s.(drone := if id.Some? then Armed(id.value) else Unresolved)
    case DroneStarts => s.(drone := Beating(s.drone.id))
    case DroneBeats => s.(emitted := s.emitted + {s.drone.id})
    case SnifferStarts => s.(snifferBeats := true)
    case SnifferBeats => s.(emitted := s.emitted + {cfg.sniffer})
    case Report(id) => s.(reported := if id.Some? then s.reported + [id.value] else s.reported)
  }

  /** The state after a sequence of actions, and whether each was enabled in its turn. */
  ghost function After(cfg: Config, acts: seq<Action>): (bool, State) {
    if acts == [] then (true, INIT)
    else
      var (ok, s) := After(cfg, acts[..|acts| - 1]);
      var a := acts[|acts| - 1];
      if ok && Enabled(cfg, s, a) then (true, Next(cfg, s, a)) else (false, s)
  }

  ghost predicate Reaches(cfg: Config, acts: seq<Action>, s: State) { After(cfg, acts) == (true, s) }

  /** An id the unit may use for itself. */
  predicate Safe(cfg: Config, id: Byte) { id > 0 && !cfg.Internal(id) }

  ghost predicate Inv(cfg: Config, s: State) {
    && (forall id | id in s.systems :: !cfg.Internal(id) && (id in s.external || id in s.emitted))
    && (forall id | id in s.emitted :: id == cfg.sniffer || (Safe(cfg, id) && (cfg.Auto() ==> id in s.systems)))
    && (cfg.Auto() ==> forall id | id in s.systems :: id in s.external)
    && (!s.drone.Waiting? || s.snifferBeats || s.emitted != {} ==>
          FcIds(s.systems) != {} && exists id | id in s.external :: IsFc(id) && !cfg.Internal(id))
    && (s.drone.Armed? || s.drone.Beating? ==> Safe(cfg, s.drone.id) && (cfg.Auto() ==> s.drone.id in FcIds(s.systems)))
    && (forall id | id in s.reported :: Safe(cfg, id) && (cfg.Auto() ==> id in FcIds(s.systems)))
    && !s.drone.Unresolved?
  }

  lemma StepKeeps(cfg: Config, s: State, a: Action)
    requires cfg.Valid() && Inv(cfg, s) && Enabled(cfg, s, a)
    ensures Inv(cfg, Next(cfg, s, a))
  {
    var t := Next(cfg, s, a);
    assert FcIds(s.systems) <= FcIds(t.systems);
    if FcIds(s.systems) != {} {
      var id :| id in FcIds(s.systems);
      assert id in t.systems;
      assert s.emitted == {} ==> id in s.external;
    }
  }

  lemma {:induction false} InvReached(cfg: Config, acts: seq<Action>, s: State)
    requires cfg.Valid() && Reaches(cfg, acts, s)
    ensures Inv(cfg, s)
  {
    if acts != [] {
      var r := After(cfg, acts[..|acts| - 1]).1;
      InvReached(cfg, acts[..|acts| - 1], r);
      StepKeeps(cfg, r, acts[|acts| - 1]);
    }
  }

  /** Identity safety, in every reachable state of a valid configuration: a resolved own id is
      positive and none of the unit's other ids; nothing is emitted before the heartbeat of an
      external flight controller; and the branch for an unresolved id is never taken. */
  lemma IdentitySafety(cfg: Config, acts: seq<Action>, s: State, id: Byte)
    requires cfg.Valid() && Reaches(cfg, acts, s)
    ensures Resolves(cfg, s.systems, Some(id)) ==> Safe(cfg, id)
    ensures s.drone.Armed? || s.drone.Beating? ==> Safe(cfg, s.drone.id)
    ensures forall x | x in s.reported :: Safe(cfg, x)
    ensures s.emitted != {} ==> exists x | x in s.external :: IsFc(x) && !cfg.Internal(x)
    ensures !s.drone.Unresolved?
    ensures !s.drone.Waiting? ==> !Resolves(cfg, s.systems, None)
    ensures Resolves(cfg, s.systems, Some(id)) || id in s.reported || (s.drone.Beating? && id == s.drone.id) ==>
              && id > 0 && id != cfg.sniffer && id != cfg.bs && id != cfg.gcs
              && (cfg.self == 0 ==> id < 200 && id in s.systems)
    ensures s.emitted != {} ==>
              exists x: Byte | x in s.external :: 0 < x < 200 && x != cfg.sniffer && x != cfg.bs && x != cfg.gcs
  {
    InvReached(cfg, acts, s);
  }

  /** Under autodiscovery the unit's own heartbeats never enlarge the discovered set, which
      therefore holds external ids only. */
  lemma OwnEchoesAddNothing(cfg: Config, acts: seq<Action>, s: State, id: Byte)
    requires cfg.Valid() && cfg.Auto() && Reaches(cfg, acts, s) && id in s.emitted
    ensures Next(cfg, s, HearEcho(id)).systems == s.systems && s.systems <= s.external
  {
    InvReached(cfg, acts, s);
  }

  /** With a configured id they do exactly when that id was not known yet. */
  lemma ConfiguredEchoAdds(cfg: Config, acts: seq<Action>, s: State, id: Byte)
    requires cfg.Valid() && !cfg.Auto() && Reaches(cfg, acts, s) && id in s.emitted
    ensures Next(cfg, s, HearEcho(id)).systems != s.systems <==> id != cfg.sniffer && id !in s.systems
  {
    InvReached(cfg, acts, s);
  }

  /** Resolution only ever goes down: what is resolved later is no larger than what was resolved
      before, for the reporter and against the id the drone beats with. */
  lemma ResolutionDescends(cfg: Config, acts: seq<Action>, s: State, id: Byte)
    requires cfg.Valid() && cfg.Auto() && Reaches(cfg, acts, s) && Resolves(cfg, s.systems, Some(id))
    ensures forall x | x in s.reported :: id <= x
    ensures s.drone.Armed? || s.drone.Beating? ==> id <= s.drone.id
  {
    InvReached(cfg, acts, s);
  }

  lemma {:induction false} ReportsDescend(cfg: Config, acts: seq<Action>, s: State)
    requires cfg.Valid() && cfg.Auto() && Reaches(cfg, acts, s)
    ensures forall i, j | 0 <= i < j < |s.reported| :: s.reported[i] >= s.reported[j]
  {
    if acts != [] {
      var front, a := acts[..|acts| - 1], acts[|acts| - 1];
      var r := After(cfg, front).1;
      ReportsDescend(cfg, front, r);
      if a.Report? && a.resolved.Some? {
        ResolutionDescends(cfg, front, r, a.resolved.value);
        assert forall i | 0 <= i < |r.reported| :: r.reported[i] in r.reported;
      }
    }
  }

  /** Exactly the ids from 1 to 199 belong to flight controllers, so a base station or GCS id of 200
      or more is never taken for one. */
  lemma FcRange(systems: set<Byte>, id: Byte)
    ensures id in FcIds(systems) <==> id in systems && 1 <= id <= 199
  {
  }

  /** From step `k` on a flight controller other than the unit's own components, with an id
      smaller than `v`, was heard. */
  ghost predicate HeardSmaller(cfg: Config, acts: seq<Action>, k: nat, v: Byte) {
    exists i | k <= i < |acts| :: IsSmaller(cfg, acts[i], v)
  }

  predicate IsSmaller(cfg: Config, a: Action, v: Byte) {
    a.HearExternal? && IsFc(a.id) && !cfg.Internal(a.id) && a.id < v
  }

  ghost predicate HasSmaller(systems: set<Byte>, v: Byte) { exists x: Byte :: x in FcIds(systems) && x < v }

  /** One step brings a smaller id exactly when it hears one. */
  lemma StepBringsSmaller(cfg: Config, s: State, a: Action, v: Byte)
    requires Inv(cfg, s) && cfg.Auto() && Enabled(cfg, s, a)
    ensures HasSmaller(Next(cfg, s, a).systems, v) <==> HasSmaller(s.systems, v) || IsSmaller(cfg, a, v)
  {
    var t := Next(cfg, s, a);
    if HasSmaller(s.systems, v) {
      var x: Byte :| x in FcIds(s.systems) && x < v;
      assert x in FcIds(t.systems);
    }
    if IsSmaller(cfg, a, v) { assert a.id in FcIds(t.systems); }
    if HasSmaller(t.systems, v) && !IsSmaller(cfg, a, v) {
      var x: Byte :| x in FcIds(t.systems) && x < v;
      assert x in FcIds(s.systems);
    }
  }

  /** The drone heartbeat resolves its id once. */
  lemma {:induction false} ResolvesOnce(cfg: Config, acts: seq<Action>, s: State, k: nat, v: Byte)
    requires Reaches(cfg, acts, s) && k < |acts| && acts[k] == DroneResolves(Some(v))
    ensures s.drone == Armed(v) || s.drone == Beating(v)
  {
    if k < |acts| - 1 {
      var front := acts[..|acts| - 1];
      ResolvesOnce(cfg, front, After(cfg, front).1, k, v);
    }
  }

  lemma {:induction false} SmallerExactlyWhenHeard(cfg: Config, acts: seq<Action>, s: State, k: nat, v: Byte)
    requires cfg.Valid() && cfg.Auto() && Reaches(cfg, acts, s) && k < |acts| && acts[k] == DroneResolves(Some(v))
    ensures HasSmaller(s.systems, v) <==> HeardSmaller(cfg, acts, k + 1, v)
    ensures v in FcIds(s.systems)
  {
    var front := acts[..|acts| - 1];
    var r := After(cfg, front).1;
    InvReached(cfg, front, r);
    if k < |front| {
      SmallerExactlyWhenHeard(cfg, front, r, k, v);
      StepBringsSmaller(cfg, r, acts[|acts| - 1], v);
    }
  }

  /** The drone keeps the id it resolved at its start.  In every later state it is the id that
      the reporter would resolve, if and only if no flight controller with a smaller id has been
      heard from outside since. */
  lemma DroneAgreesUntilSmaller(cfg: Config, acts: seq<Action>, s: State, k: nat, v: Byte, id: Byte)
    requires cfg.Valid() && cfg.Auto() && Reaches(cfg, acts, s)
    requires k < |acts| && acts[k] == DroneResolves(Some(v)) && Resolves(cfg, s.systems, Some(id))
    ensures s.drone == Armed(v) || s.drone == Beating(v)
    ensures id == v <==> !HeardSmaller(cfg, acts, k + 1, v)
  {
    ResolvesOnce(cfg, acts, s, k, v);
    SmallerExactlyWhenHeard(cfg, acts, s, k, v);
  }
}
