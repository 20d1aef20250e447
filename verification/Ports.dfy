/**
 Port wiring and port resolution.

 A port library names every instrument port; a wiremap attaches device gates to
 instrument endpoints. `ConnectWireMap` joins the two, and `ResolvePort` finds a
 connected port back from the request's own description of it.
 */
module Ports {
  import opened Wrappers

  datatype GateType = BarrierGate | PlungerGate | ReservoirGate | ScreeningGate | Ohmic

  datatype Connection = Connection(name: string, gateType: GateType)

  /** Go's zero value of a connection: a port that no gate is wired to. */
  const NO_CONNECTION := Connection("", BarrierGate)

  /** The enumerations of falcon-core are kept as their integer codes. */
  datatype PortEntry = PortEntry(
    instrumentName: string, channelGroup: string, channel: int,
    instrumentType: int, role: int, access: int, scope: int,
    characteristic: int, unit: int, description: string)

  datatype ConnectedPort = ConnectedPort(
    entry: PortEntry, portName: string, deviceName: string, handle: Connection)

  datatype InstrumentPort = InstrumentPort(
    defaultName: string, instrumentName: string, instrumentType: int,
    description: string, unit: int, pseudoName: Connection, access: int,
    scope: int, characteristic: int, portType: int)

  datatype WiremapEntry = WiremapEntry(
    deviceName: string, instrumentName: string, channelGroup: string,
    channel: int, gate: Connection)

  type PortLibrary = map<string, PortEntry>

  // ---------------------------------------------------------------- resolving

  function InstrumentPortFromConnectedPort(p: ConnectedPort): InstrumentPort {
    InstrumentPort(p.portName, p.entry.instrumentName, p.entry.instrumentType,
                   p.entry.description, p.entry.unit, p.handle, p.entry.access,
                   p.entry.scope, p.entry.characteristic, p.entry.role)
  }

  predicate MatchesPort(cfg: ConnectedPort, port: InstrumentPort) {
    && cfg.entry.instrumentName == port.instrumentName
    && cfg.portName == port.defaultName
    && cfg.entry.characteristic == port.characteristic
    && cfg.entry.instrumentType == port.instrumentType
    && cfg.entry.role == port.portType
    && cfg.entry.access == port.access
    && cfg.entry.scope == port.scope
    && cfg.entry.unit == port.unit
  }

  /** A candidate answers a request when it matches and the request either names
      no gate or names the candidate's own gate. */
  predicate Answers(cfg: ConnectedPort, port: InstrumentPort) {
    && MatchesPort(cfg, port)
    && (port.pseudoName == NO_CONNECTION || cfg.handle == port.pseudoName)
  }

  /** First-match search through the catalogue. */
  function ResolvePort(port: InstrumentPort, ports: seq<ConnectedPort>): Option<ConnectedPort> {
    if ports == [] then None
    else if Answers(ports[0], port) then Some(ports[0])
    else ResolvePort(port, ports[1..])
  }

  /** The search fails only when nothing answers, and otherwise finds the first answer. */
  lemma {:induction false} ResolvesFirstAnswer(port: InstrumentPort, ports: seq<ConnectedPort>)
    ensures ResolvePort(port, ports).None? <==> forall i | 0 <= i < |ports| :: !Answers(ports[i], port)
    ensures ResolvePort(port, ports).Some? ==>
              exists i | 0 <= i < |ports| ::
                && ResolvePort(port, ports).value == ports[i]
                && Answers(ports[i], port)
                && forall j | 0 <= j < i :: !Answers(ports[j], port)
  {
    if ports != [] && !Answers(ports[0], port) {
      ResolvesFirstAnswer(port, ports[1..]);
      assert forall i | 0 < i < |ports| :: ports[i] == ports[1..][i - 1];
      if i :| 0 <= i < |ports[1..]| && ResolvePort(port, ports[1..]) == Some(ports[1..][i])
              && Answers(ports[1..][i], port) && forall j | 0 <= j < i :: !Answers(ports[1..][j], port) {
        assert ports[i + 1] == ports[1..][i];
      }
    }
  }

  /** A request describes a port when they agree in all eight respects. */
  predicate Describes(port: InstrumentPort, name: string, p: PortEntry) {
    && port.defaultName == name && port.instrumentName == p.instrumentName
    && port.instrumentType == p.instrumentType && port.portType == p.role && port.access == p.access
    && port.scope == p.scope && port.characteristic == p.characteristic && port.unit == p.unit
  }

  /** What a request resolves to agrees with it in all eight respects, and in the gate if the
      request names one; so a request that differs from every listed port in one of them is not
      resolved. */
  lemma ResolvedAgrees(port: InstrumentPort, ports: seq<ConnectedPort>)
    ensures ResolvePort(port, ports).Some? ==>
              var p := ResolvePort(port, ports).value;
              p in ports && Describes(port, p.portName, p.entry)
              && (port.pseudoName != NO_CONNECTION ==> p.handle == port.pseudoName)
    ensures ResolvePort(port, ports).None? ==>
              forall i | 0 <= i < |ports| && Describes(port, ports[i].portName, ports[i].entry) ::
                port.pseudoName != NO_CONNECTION && ports[i].handle != port.pseudoName
  {
    ResolvesFirstAnswer(port, ports);
    forall i | 0 <= i < |ports|
      ensures Answers(ports[i], port) <==>
              && Describes(port, ports[i].portName, ports[i].entry)
              && (port.pseudoName == NO_CONNECTION || ports[i].handle == port.pseudoName)
    {
    }
  }

  // ------------------------------------------------------------------- wiring

  predicate Endpoint(e: WiremapEntry, p: PortEntry) {
    p.instrumentName == e.instrumentName && p.channelGroup == e.channelGroup && p.channel == e.channel
  }

  function Wire(e: WiremapEntry, name: string, p: PortEntry): ConnectedPort {
    ConnectedPort(p, name, e.deviceName, e.gate)
  }

  function Unwired(name: string, p: PortEntry): ConnectedPort {
    ConnectedPort(p, name, "", NO_CONNECTION)
  }

  /** `e` contributes `cp`: the library holds the port and `e` points at its endpoint. */
  predicate Contributes(e: WiremapEntry, lib: PortLibrary, cp: ConnectedPort) {
    && cp.portName in lib
    && Endpoint(e, lib[cp.portName])
    && cp == Wire(e, cp.portName, lib[cp.portName])
  }

  /** How many wiremap entries contribute exactly `cp`. */
  function WiredCount(wiremap: seq<WiremapEntry>, lib: PortLibrary, cp: ConnectedPort): nat {
    if wiremap == [] then 0
    else WiredCount(wiremap[..|wiremap| - 1], lib, cp)
         + if Contributes(wiremap[|wiremap| - 1], lib, cp) then 1 else 0
  }

  predicate Reached(wiremap: seq<WiremapEntry>, p: PortEntry) {
    exists i | 0 <= i < |wiremap| :: Endpoint(wiremap[i], p)
  }

  /** How often `cp` occurs in the connected list: once per contributing entry, and
      once more when it is the bare form of a port that no entry reaches. */
  function ExpectedCount(wiremap: seq<WiremapEntry>, lib: PortLibrary, cp: ConnectedPort): nat {
    WiredCount(wiremap, lib, cp)
    + if cp.portName in lib && cp == Unwired(cp.portName, lib[cp.portName]) && !Reached(wiremap, lib[cp.portName])
      then 1 else 0
  }

  lemma ReachedSnoc(wiremap: seq<WiremapEntry>, i: nat, p: PortEntry)
    requires i < |wiremap|
    ensures Reached(wiremap[..i + 1], p) <==> Reached(wiremap[..i], p) || Endpoint(wiremap[i], p)
  {
    assert wiremap[..i + 1] == wiremap[..i] + [wiremap[i]];
    if Reached(wiremap[..i], p) {
      var j :| 0 <= j < i && Endpoint(wiremap[..i][j], p);
      assert Endpoint(wiremap[..i + 1][j], p);
    }
    if Endpoint(wiremap[i], p) {
      assert Endpoint(wiremap[..i + 1][i], p);
    }
  }

  /** The listed ports of one name, in list order. */
  function Named(connected: seq<ConnectedPort>, name: string): seq<ConnectedPort> {
    if connected == [] then []
    else
      var last := connected[|connected| - 1];
      Named(connected[..|connected| - 1], name) + if last.portName == name then [last] else []
  }

  /** The wired forms of a port, in the order of the wiremap. */
  function Wires(wiremap: seq<WiremapEntry>, name: string, p: PortEntry): seq<ConnectedPort> {
    if wiremap == [] then []
    else
      var last := wiremap[|wiremap| - 1];
      Wires(wiremap[..|wiremap| - 1], name, p) + if Endpoint(last, p) then [Wire(last, name, p)] else []
  }

  /** What is listed under one name: its wired forms, or its bare form if there is none. */
  function Listing(wiremap: seq<WiremapEntry>, lib: PortLibrary, name: string): seq<ConnectedPort> {
    if name !in lib then []
    else if Wires(wiremap, name, lib[name]) == [] then [Unwired(name, lib[name])]
    else Wires(wiremap, name, lib[name])
  }

  lemma NamedSnoc(connected: seq<ConnectedPort>, cp: ConnectedPort, name: string)
    ensures Named(connected + [cp], name) == Named(connected, name) + if cp.portName == name then [cp] else []
  {
    assert (connected + [cp])[..|connected|] == connected;
  }

  lemma WiresSnoc(wiremap: seq<WiremapEntry>, i: nat, name: string, p: PortEntry)
    requires i < |wiremap|
    ensures Wires(wiremap[..i + 1], name, p)
         == Wires(wiremap[..i], name, p) + if Endpoint(wiremap[i], p) then [Wire(wiremap[i], name, p)] else []
  {
    assert wiremap[..i + 1][..i] == wiremap[..i];
  }

  lemma {:induction false} WiresEmpty(wiremap: seq<WiremapEntry>, name: string, p: PortEntry)
    ensures Wires(wiremap, name, p) == [] <==> !Reached(wiremap, p)
  {
    if wiremap != [] {
      var last := |wiremap| - 1;
      WiresEmpty(wiremap[..last], name, p);
      ReachedSnoc(wiremap, last, p);
      assert wiremap[..last + 1] == wiremap;
    }
  }

  /** `after` lists under each name what `before` lists, and then the port in `extra`. */
  ghost predicate Extended(before: seq<ConnectedPort>, after: seq<ConnectedPort>, extra: map<string, ConnectedPort>) {
    forall n :: Named(after, n) == Named(before, n) + if n in extra then [extra[n]] else []
  }

  lemma ExtendedSnoc(before: seq<ConnectedPort>, after: seq<ConnectedPort>, extra: map<string, ConnectedPort>,
                     cp: ConnectedPort)
    requires Extended(before, after, extra) && cp.portName !in extra
    ensures Extended(before, after + [cp], extra[cp.portName := cp])
  {
    forall n
      ensures Named(after + [cp], n)
           == Named(before, n) + if n in extra[cp.portName := cp] then [extra[cp.portName := cp][n]] else []
    {
      NamedSnoc(after, cp, n);
      assert Named(after, n) == Named(before, n) + if n in extra then [extra[n]] else [];
    }
  }

  /** The inner loop: one wiremap entry against the whole library. Go walks the map
      in an arbitrary order, here by choosing any key that is left. */
  method ConnectEntry(e: WiremapEntry, lib: PortLibrary, before: seq<ConnectedPort>, addedBefore: set<string>)
    returns (connected: seq<ConnectedPort>, added: set<string>)
    ensures forall n :: n in added <==> n in addedBefore || (n in lib && Endpoint(e, lib[n]))
    ensures Extended(before, connected, map n | n in lib && Endpoint(e, lib[n]) :: Wire(e, n, lib[n]))
  {
    connected, added := before, addedBefore;
    var remaining := lib.Keys;
    ghost var extra: map<string, ConnectedPort> := map[];
    while remaining != {}
      invariant remaining <= lib.Keys
      invariant forall n :: n in extra <==> n in lib && n !in remaining && Endpoint(e, lib[n])
      invariant forall n :: n in extra ==> extra[n] == Wire(e, n, lib[n])
      invariant forall n :: n in added <==> n in addedBefore || n in extra
      invariant Extended(before, connected, extra)
      decreases remaining
    {
      var name :| name in remaining;
      if Endpoint(e, lib[name]) {
        var cp := Wire(e, name, lib[name]);
        ExtendedSnoc(before, connected, extra, cp);
        extra := extra[name := cp];
        connected := connected + [cp];
        added := added + {name};
      }
      remaining := remaining - {name};
    }
    assert extra == map n | n in lib && Endpoint(e, lib[n]) :: Wire(e, n, lib[n]);
  }

  /** The final loop: library ports that no entry reached are listed without a gate. */
  method AddUnwired(lib: PortLibrary, added: set<string>, before: seq<ConnectedPort>)
    returns (connected: seq<ConnectedPort>)
    ensures Extended(before, connected, map n | n in lib && n !in added :: Unwired(n, lib[n]))
  {
    connected := before;
    var remaining := lib.Keys;
    ghost var extra: map<string, ConnectedPort> := map[];
    while remaining != {}
      invariant remaining <= lib.Keys
      invariant forall n :: n in extra <==> n in lib && n !in remaining && n !in added
      invariant forall n :: n in extra ==> extra[n] == Unwired(n, lib[n])
      invariant Extended(before, connected, extra)
      decreases remaining
    {
      var name :| name in remaining;
      if name !in added {
        var cp := Unwired(name, lib[name]);
        ExtendedSnoc(before, connected, extra, cp);
        extra := extra[name := cp];
        connected := connected + [cp];
      }
      remaining := remaining - {name};
    }
    assert extra == map n | n in lib && n !in added :: Unwired(n, lib[n]);
  }

  /** The list so far, after the first `i` entries. */
  ghost predicate ListedUpTo(wiremap: seq<WiremapEntry>, i: nat, lib: PortLibrary, connected: seq<ConnectedPort>)
    requires i <= |wiremap|
  {
    forall n :: Named(connected, n) == if n in lib then Wires(wiremap[..i], n, lib[n]) else []
  }

  lemma ListedNext(wiremap: seq<WiremapEntry>, i: nat, lib: PortLibrary, before: seq<ConnectedPort>,
                   after: seq<ConnectedPort>)
    requires i < |wiremap| && ListedUpTo(wiremap, i, lib, before)
    requires Extended(before, after, map n | n in lib && Endpoint(wiremap[i], lib[n]) :: Wire(wiremap[i], n, lib[n]))
    ensures ListedUpTo(wiremap, i + 1, lib, after)
  {
    forall n
      ensures Named(after, n) == if n in lib then Wires(wiremap[..i + 1], n, lib[n]) else []
    {
      assert Named(before, n) == if n in lib then Wires(wiremap[..i], n, lib[n]) else [];
      if n in lib {
        WiresSnoc(wiremap, i, n, lib[n]);
      }
    }
  }

  lemma ListedAtEnd(wiremap: seq<WiremapEntry>, lib: PortLibrary, added: set<string>, before: seq<ConnectedPort>,
                    after: seq<ConnectedPort>)
    requires ListedUpTo(wiremap, |wiremap|, lib, before)
    requires forall n :: n in added <==> n in lib && Reached(wiremap, lib[n])
    requires Extended(before, after, map n | n in lib && n !in added :: Unwired(n, lib[n]))
    ensures Lists(wiremap, lib, after)
  {
    assert wiremap[..|wiremap|] == wiremap;
    forall n
      ensures Named(after, n) == Listing(wiremap, lib, n)
    {
      assert Named(before, n) == if n in lib then Wires(wiremap[..|wiremap|], n, lib[n]) else [];
      if n in lib {
        WiresEmpty(wiremap, n, lib[n]);
      }
    }
  }

  /** The connected list holds, under each name, its wired forms in wiremap order or else its
      bare form; no iteration order of either Go map can change that. */
  method ConnectWireMap(wiremap: seq<WiremapEntry>, lib: PortLibrary) returns (connected: seq<ConnectedPort>)
    ensures Lists(wiremap, lib, connected) && Connects(wiremap, lib, connected)
  {
    connected := [];
    var added: set<string> := {};
    for i := 0 to |wiremap|
      invariant forall n :: n in added <==> n in lib && Reached(wiremap[..i], lib[n])
      invariant ListedUpTo(wiremap, i, lib, connected)
    {
      ghost var before := connected;
      connected, added := ConnectEntry(wiremap[i], lib, connected, added);
      ListedNext(wiremap, i, lib, before, connected);
      forall p: PortEntry
        ensures Reached(wiremap[..i + 1], p) <==> Reached(wiremap[..i], p) || Endpoint(wiremap[i], p)
      {
        ReachedSnoc(wiremap, i, p);
      }
    }
    assert wiremap[..|wiremap|] == wiremap;
    ghost var before := connected;
    connected := AddUnwired(lib, added, connected);
    ListedAtEnd(wiremap, lib, added, before, connected);
    ListsConnects(wiremap, lib, connected);
  }

  // ----------------------------------------------------------- order and counts

  ghost predicate Lists(wiremap: seq<WiremapEntry>, lib: PortLibrary, connected: seq<ConnectedPort>) {
    forall n :: Named(connected, n) == Listing(wiremap, lib, n)
  }

  lemma {:induction false} NamedCount(connected: seq<ConnectedPort>, cp: ConnectedPort)
    ensures multiset(Named(connected, cp.portName))[cp] == multiset(connected)[cp]
  {
    if connected != [] {
      var init, last := connected[..|connected| - 1], connected[|connected| - 1];
      assert connected == init + [last];
      NamedCount(init, cp);
    }
  }

  lemma {:induction false} WiresCount(wiremap: seq<WiremapEntry>, lib: PortLibrary, cp: ConnectedPort)
    requires cp.portName in lib
    ensures multiset(Wires(wiremap, cp.portName, lib[cp.portName]))[cp] == WiredCount(wiremap, lib, cp)
  {
    if wiremap != [] {
      WiresCount(wiremap[..|wiremap| - 1], lib, cp);
    }
  }

  lemma {:induction false} NothingWired(wiremap: seq<WiremapEntry>, lib: PortLibrary, cp: ConnectedPort)
    requires cp.portName !in lib
    ensures WiredCount(wiremap, lib, cp) == 0
  {
    if wiremap != [] {
      NothingWired(wiremap[..|wiremap| - 1], lib, cp);
    }
  }

  /** Counted up, the list holds every port as often as wiremap and library determine. */
  lemma ListsConnects(wiremap: seq<WiremapEntry>, lib: PortLibrary, connected: seq<ConnectedPort>)
    requires Lists(wiremap, lib, connected)
    ensures Connects(wiremap, lib, connected)
  {
    forall cp: ConnectedPort
      ensures multiset(connected)[cp] == ExpectedCount(wiremap, lib, cp)
    {
      NamedCount(connected, cp);
      assert Named(connected, cp.portName) == Listing(wiremap, lib, cp.portName);
      if cp.portName in lib {
        WiresCount(wiremap, lib, cp);
        WiresEmpty(wiremap, cp.portName, lib[cp.portName]);
      } else {
        NothingWired(wiremap, lib, cp);
      }
    }
  }

  // --------------------------------------------------------------- round trip

  /** What connecting promises about its result, whichever order Go picked. */
  ghost predicate Connects(wiremap: seq<WiremapEntry>, lib: PortLibrary, connected: seq<ConnectedPort>) {
    forall cp: ConnectedPort :: multiset(connected)[cp] == ExpectedCount(wiremap, lib, cp)
  }

  /** Every entry carries the gate that its device name resolved to, and a real one. */
  predicate GatesResolved(wiremap: seq<WiremapEntry>) {
    forall i | 0 <= i < |wiremap| ::
      wiremap[i].gate.name == wiremap[i].deviceName && wiremap[i].gate != NO_CONNECTION
  }

  lemma {:induction false} WiredCountPositive(wiremap: seq<WiremapEntry>, lib: PortLibrary, cp: ConnectedPort)
    ensures WiredCount(wiremap, lib, cp) > 0 <==>
            exists i | 0 <= i < |wiremap| :: Contributes(wiremap[i], lib, cp)
  {
    if wiremap != [] {
      var last := |wiremap| - 1;
      var init := wiremap[..last];
      WiredCountPositive(init, lib, cp);
      if WiredCount(init, lib, cp) > 0 {
        var i :| 0 <= i < last && Contributes(init[i], lib, cp);
        assert Contributes(wiremap[i], lib, cp);
      }
      if i :| 0 <= i < last && Contributes(wiremap[i], lib, cp) {
        assert Contributes(init[i], lib, cp);
      }
    }
  }

  /** Membership in the connected list, both ways. */
  lemma ConnectedMembers(wiremap: seq<WiremapEntry>, lib: PortLibrary, connected: seq<ConnectedPort>,
                         cp: ConnectedPort)
    requires Connects(wiremap, lib, connected)
    ensures cp in connected <==>
            || (exists i | 0 <= i < |wiremap| :: Contributes(wiremap[i], lib, cp))
            || (cp.portName in lib && cp == Unwired(cp.portName, lib[cp.portName])
                && !Reached(wiremap, lib[cp.portName]))
  {
    WiredCountPositive(wiremap, lib, cp);
    assert cp in connected <==> multiset(connected)[cp] > 0;
  }

  /** Only the ports of the requested name can answer. */
  lemma {:induction false} ResolvesAmongNamed(port: InstrumentPort, connected: seq<ConnectedPort>)
    ensures ResolvePort(port, connected) == ResolvePort(port, Named(connected, port.defaultName))
  {
    if connected != [] {
      var init, last := connected[..|connected| - 1], connected[|connected| - 1];
      assert connected == init + [last];
      ResolvesAmongNamed(port, init);
      ResolveSnoc(port, init, last);
      ResolveSnoc(port, Named(init, port.defaultName), last);
      assert Named(init, port.defaultName) + [] == Named(init, port.defaultName);
    }
  }

  lemma {:induction false} ResolveSnoc(port: InstrumentPort, init: seq<ConnectedPort>, last: ConnectedPort)
    ensures ResolvePort(port, init + [last])
         == if ResolvePort(port, init).Some? then ResolvePort(port, init)
            else if Answers(last, port) then Some(last) else None
  {
    if init != [] {
      assert (init + [last])[1..] == init[1..] + [last];
      ResolveSnoc(port, init[1..], last);
    } else {
      assert [last][1..] == [];
    }
  }

  /** A request for the later entry's port is answered by the earlier entry's. */
  predicate Stands(earlier: WiremapEntry, later: WiremapEntry) {
    later.gate == NO_CONNECTION || later.gate == earlier.gate
  }

  predicate SameWiring(e: WiremapEntry, f: WiremapEntry) {
    e.gate == f.gate && e.deviceName == f.deviceName
  }

  /** An entry for which an earlier, different one on its endpoint stands has its own wiring
      listed before that one already. */
  predicate Unmistakable(wiremap: seq<WiremapEntry>, p: PortEntry) {
    forall i, k | 0 <= i < k < |wiremap| && Endpoint(wiremap[i], p) && Endpoint(wiremap[k], p) ::
      Stands(wiremap[i], wiremap[k]) && !SameWiring(wiremap[i], wiremap[k]) ==> ListedBefore(wiremap, p, i, wiremap[k])
  }

  predicate ListedBefore(wiremap: seq<WiremapEntry>, p: PortEntry, i: nat, e: WiremapEntry)
    requires i <= |wiremap|
  {
    exists m | 0 <= m < i :: Endpoint(wiremap[m], p) && SameWiring(wiremap[m], e)
  }

  /** Entry `i` is the first on the endpoint that stands for `e`. */
  predicate FirstToStand(wiremap: seq<WiremapEntry>, p: PortEntry, e: WiremapEntry, i: nat)
    requires i < |wiremap|
  {
    && Endpoint(wiremap[i], p) && Stands(wiremap[i], e)
    && forall j | 0 <= j < i :: !(Endpoint(wiremap[j], p) && Stands(wiremap[j], e))
  }

  /** What a wired port resolves to among the wired forms of its name. */
  lemma {:induction false} ResolvesWired(wiremap: seq<WiremapEntry>, name: string, p: PortEntry, e: WiremapEntry)
    ensures
      var r := ResolvePort(InstrumentPortFromConnectedPort(Wire(e, name, p)), Wires(wiremap, name, p));
      if r.None? then forall i | 0 <= i < |wiremap| :: !(Endpoint(wiremap[i], p) && Stands(wiremap[i], e))
      else exists i | 0 <= i < |wiremap| :: FirstToStand(wiremap, p, e, i) && r.value == Wire(wiremap[i], name, p)
  {
    if wiremap != [] {
      var init, last := wiremap[..|wiremap| - 1], wiremap[|wiremap| - 1];
      var port := InstrumentPortFromConnectedPort(Wire(e, name, p));
      ResolvesWired(init, name, p, e);
      ResolveSnoc(port, Wires(init, name, p), Wire(last, name, p));
      assert Wires(init, name, p) + [] == Wires(init, name, p);
      assert forall i | 0 <= i < |init| :: init[i] == wiremap[i];
      if ResolvePort(port, Wires(init, name, p)).Some? {
        var i :| 0 <= i < |init| && FirstToStand(init, p, e, i)
                 && ResolvePort(port, Wires(init, name, p)).value == Wire(init[i], name, p);
        assert FirstToStand(wiremap, p, e, i);
      } else if Endpoint(last, p) && Stands(last, e) {
        assert FirstToStand(wiremap, p, e, |init|);
      }
    }
  }

  predicate RoundTrips(cp: ConnectedPort, connected: seq<ConnectedPort>) {
    ResolvePort(InstrumentPortFromConnectedPort(cp), connected) == Some(cp)
  }

  /** A wired port round-trips exactly when the first entry that stands for it has its wiring. */
  lemma WiredRoundTrips(wiremap: seq<WiremapEntry>, lib: PortLibrary, connected: seq<ConnectedPort>, name: string,
                        k: nat)
    returns (first: nat)
    requires Lists(wiremap, lib, connected)
    requires name in lib && k < |wiremap| && Endpoint(wiremap[k], lib[name])
    ensures first <= k && FirstToStand(wiremap, lib[name], wiremap[k], first)
    ensures RoundTrips(Wire(wiremap[k], name, lib[name]), connected) <==> SameWiring(wiremap[first], wiremap[k])
  {
    var p, e := lib[name], wiremap[k];
    var port := InstrumentPortFromConnectedPort(Wire(e, name, p));
    ResolvesAmongNamed(port, connected);
    assert Named(connected, name) == Listing(wiremap, lib, name);
    assert Reached(wiremap, p);
    WiresEmpty(wiremap, name, p);
    ResolvesWired(wiremap, name, p, e);
    assert Stands(e, e);
    first :| 0 <= first < |wiremap| && FirstToStand(wiremap, p, e, first)
             && ResolvePort(port, Wires(wiremap, name, p)).value == Wire(wiremap[first], name, p);
  }

  lemma {:induction false} InNamed(connected: seq<ConnectedPort>, cp: ConnectedPort)
    ensures cp in connected <==> cp in Named(connected, cp.portName)
  {
    if connected != [] {
      var init, last := connected[..|connected| - 1], connected[|connected| - 1];
      assert connected == init + [last];
      InNamed(init, cp);
    }
  }

  lemma {:induction false} InWires(wiremap: seq<WiremapEntry>, name: string, p: PortEntry, cp: ConnectedPort)
    ensures cp in Wires(wiremap, name, p) <==>
            exists k | 0 <= k < |wiremap| :: Endpoint(wiremap[k], p) && cp == Wire(wiremap[k], name, p)
  {
    if wiremap != [] {
      var init, last := wiremap[..|wiremap| - 1], wiremap[|wiremap| - 1];
      InWires(init, name, p, cp);
      assert forall k | 0 <= k < |init| :: init[k] == wiremap[k];
      if cp in Wires(init, name, p) {
        var k :| 0 <= k < |init| && Endpoint(init[k], p) && cp == Wire(init[k], name, p);
        assert Endpoint(wiremap[k], p) && cp == Wire(wiremap[k], name, p);
      }
    }
  }

  lemma BareRoundTrips(wiremap: seq<WiremapEntry>, lib: PortLibrary, connected: seq<ConnectedPort>, cp: ConnectedPort)
    requires Lists(wiremap, lib, connected) && Named(connected, cp.portName) == [cp]
    ensures RoundTrips(cp, connected)
  {
    var port := InstrumentPortFromConnectedPort(cp);
    ResolvesAmongNamed(port, connected);
    assert Answers(cp, port);
  }

  /** Connecting and then resolving gives back every port of the list exactly when no library
      port is reached by entries of which one is mistaken for another. */
  lemma RoundTripExactly(wiremap: seq<WiremapEntry>, lib: PortLibrary, connected: seq<ConnectedPort>)
    requires Lists(wiremap, lib, connected)
    ensures (forall cp :: cp in connected ==> RoundTrips(cp, connected)) <==>
            (forall n :: n in lib ==> Unmistakable(wiremap, lib[n]))
  {
    if forall cp :: cp in connected ==> RoundTrips(cp, connected) {
      forall n | n in lib
        ensures Unmistakable(wiremap, lib[n])
      {
        RoundTripsUnmistakable(wiremap, lib, connected, n);
      }
    }
    if forall n :: n in lib ==> Unmistakable(wiremap, lib[n]) {
      forall cp | cp in connected
        ensures RoundTrips(cp, connected)
      {
        UnmistakableRoundTrips(wiremap, lib, connected, cp);
      }
    }
  }

  lemma RoundTripsUnmistakable(wiremap: seq<WiremapEntry>, lib: PortLibrary, connected: seq<ConnectedPort>, n: string)
    requires Lists(wiremap, lib, connected) && n in lib
    requires forall cp :: cp in connected ==> RoundTrips(cp, connected)
    ensures Unmistakable(wiremap, lib[n])
  {
    forall i, k | 0 <= i < k < |wiremap| && Endpoint(wiremap[i], lib[n]) && Endpoint(wiremap[k], lib[n])
                  && Stands(wiremap[i], wiremap[k]) && !SameWiring(wiremap[i], wiremap[k])
      ensures ListedBefore(wiremap, lib[n], i, wiremap[k])
    {
      var cp := Wire(wiremap[k], n, lib[n]);
      InWires(wiremap, n, lib[n], cp);
      InNamed(connected, cp);
      assert Named(connected, n) == Listing(wiremap, lib, n);
      var first := WiredRoundTrips(wiremap, lib, connected, n, k);
      assert first < i;
    }
  }

  lemma UnmistakableRoundTrips(wiremap: seq<WiremapEntry>, lib: PortLibrary, connected: seq<ConnectedPort>,
                               cp: ConnectedPort)
    requires Lists(wiremap, lib, connected) && cp in connected
    requires cp.portName in lib ==> Unmistakable(wiremap, lib[cp.portName])
    ensures RoundTrips(cp, connected)
  {
    var n := cp.portName;
    InNamed(connected, cp);
    assert Named(connected, n) == Listing(wiremap, lib, n);
    var p := lib[n];
    if cp in Wires(wiremap, n, p) {
      InWires(wiremap, n, p, cp);
      var k :| 0 <= k < |wiremap| && Endpoint(wiremap[k], p) && cp == Wire(wiremap[k], n, p);
      var first := WiredRoundTrips(wiremap, lib, connected, n, k);
      assert !ListedBefore(wiremap, p, first, wiremap[k]);
    } else {
      BareRoundTrips(wiremap, lib, connected, cp);
    }
  }

  /** In particular, resolved gates are enough. */
  lemma ConnectThenResolve(wiremap: seq<WiremapEntry>, lib: PortLibrary, connected: seq<ConnectedPort>,
                           cp: ConnectedPort)
    requires Lists(wiremap, lib, connected) && GatesResolved(wiremap)
    requires cp in connected
    ensures ResolvePort(InstrumentPortFromConnectedPort(cp), connected) == Some(cp)
  {
    UnmistakableRoundTrips(wiremap, lib, connected, cp);
  }

  predicate DistinctEndpoints(wiremap: seq<WiremapEntry>) {
    forall i, j | 0 <= i < j < |wiremap| ::
      !(wiremap[i].instrumentName == wiremap[j].instrumentName
        && wiremap[i].channelGroup == wiremap[j].channelGroup
        && wiremap[i].channel == wiremap[j].channel)
  }

  lemma TwiceInMultiset(s: seq<ConnectedPort>, i: nat, j: nat)
    requires i < j < |s| && s[i] == s[j]
    ensures multiset(s)[s[i]] >= 2
  {
    assert s == s[..j] + [s[j]] + s[j + 1..];
    assert s[..j][i] in multiset(s[..j]);
  }

  lemma {:induction false} DistinctEndpointsWireOnce(wiremap: seq<WiremapEntry>, lib: PortLibrary, cp: ConnectedPort)
    requires DistinctEndpoints(wiremap)
    ensures WiredCount(wiremap, lib, cp) <= 1
  {
    if wiremap != [] {
      var last := |wiremap| - 1;
      DistinctEndpointsWireOnce(wiremap[..last], lib, cp);
      WiredCountPositive(wiremap[..last], lib, cp);
    }
  }

  /** Every library port is listed; with distinct endpoints, no name is listed twice. */
  lemma EveryPortListed(wiremap: seq<WiremapEntry>, lib: PortLibrary, connected: seq<ConnectedPort>)
    requires Connects(wiremap, lib, connected)
    ensures forall n :: n in lib <==> exists cp :: cp in connected && cp.portName == n
    ensures DistinctEndpoints(wiremap) ==>
              forall i, j | 0 <= i < j < |connected| :: connected[i].portName != connected[j].portName
  {
    forall n | n in lib
      ensures exists cp :: cp in connected && cp.portName == n
    {
      if i :| 0 <= i < |wiremap| && Endpoint(wiremap[i], lib[n]) {
        var cp := Wire(wiremap[i], n, lib[n]);
        assert Contributes(wiremap[i], lib, cp);
        ConnectedMembers(wiremap, lib, connected, cp);
        assert cp in connected && cp.portName == n;
      } else {
        ConnectedMembers(wiremap, lib, connected, Unwired(n, lib[n]));
        assert Unwired(n, lib[n]) in connected && Unwired(n, lib[n]).portName == n;
      }
    }
    forall cp | cp in connected
      ensures cp.portName in lib
    {
      ConnectedMembers(wiremap, lib, connected, cp);
    }
    if DistinctEndpoints(wiremap) {
      forall i, j | 0 <= i < j < |connected|
        ensures connected[i].portName != connected[j].portName
      {
        NameListedOnce(wiremap, lib, connected, i, j);
      }
    }
  }

  /** What every entry of the list says: the library's port, with device and gate of a wiremap entry
      on its endpoint, or with neither if there is none. */
  lemma ListedFields(wiremap: seq<WiremapEntry>, lib: PortLibrary, connected: seq<ConnectedPort>, cp: ConnectedPort)
    requires Connects(wiremap, lib, connected) && cp in connected
    ensures cp.portName in lib && cp.entry == lib[cp.portName]
    ensures || (exists i | 0 <= i < |wiremap| ::
                  && wiremap[i].instrumentName == cp.entry.instrumentName
                  && wiremap[i].channelGroup == cp.entry.channelGroup && wiremap[i].channel == cp.entry.channel
                  && cp.deviceName == wiremap[i].deviceName && cp.handle == wiremap[i].gate)
            || (&& cp.deviceName == "" && cp.handle == Connection("", BarrierGate)
                && forall i | 0 <= i < |wiremap| ::
                     !(&& wiremap[i].instrumentName == cp.entry.instrumentName
                       && wiremap[i].channelGroup == cp.entry.channelGroup && wiremap[i].channel == cp.entry.channel))
  {
    ConnectedMembers(wiremap, lib, connected, cp);
  }

  lemma NameListedOnce(wiremap: seq<WiremapEntry>, lib: PortLibrary, connected: seq<ConnectedPort>, i: nat, j: nat)
    requires Connects(wiremap, lib, connected) && DistinctEndpoints(wiremap)
    requires i < j < |connected|
    ensures connected[i].portName != connected[j].portName
  {
    var a, b := connected[i], connected[j];
    ConnectedMembers(wiremap, lib, connected, a);
    ConnectedMembers(wiremap, lib, connected, b);
    if a.portName == b.portName {
      assert a == b;
      TwiceInMultiset(connected, i, j);
      DistinctEndpointsWireOnce(wiremap, lib, a);
      WiredCountPositive(wiremap, lib, a);
    }
  }

  /** The gate hypothesis is needed: when a second entry on the same endpoint carries no
      gate, its port resolves to the first entry's port instead. */
  lemma MissingGateResolvesElsewhere(p: PortEntry, name: string)
    ensures
      var named := WiremapEntry("P1", p.instrumentName, p.channelGroup, p.channel, Connection("P1", PlungerGate));
      var bare := WiremapEntry("", p.instrumentName, p.channelGroup, p.channel, NO_CONNECTION);
      var connected := [Wire(named, name, p), Wire(bare, name, p)];
      && Lists([named, bare], map[name := p], connected)
      && ResolvePort(InstrumentPortFromConnectedPort(connected[1]), connected) == Some(connected[0])
      && connected[0] != connected[1]
  {
    var named := WiremapEntry("P1", p.instrumentName, p.channelGroup, p.channel, Connection("P1", PlungerGate));
    var bare := WiremapEntry("", p.instrumentName, p.channelGroup, p.channel, NO_CONNECTION);
    var wiremap, lib := [named, bare], map[name := p];
    var connected := [Wire(named, name, p), Wire(bare, name, p)];
    assert connected[0].deviceName != connected[1].deviceName;
    assert wiremap[..1] == [named] && connected[..1] == [connected[0]];
    assert Named(connected[..1], name) == [connected[0]] by {
      assert connected[..1][..0] == [];
    }
    assert Wires([named], name, p) == [connected[0]] by {
      assert [named][..0] == [];
    }
    forall n
      ensures Named(connected, n) == Listing(wiremap, lib, n)
    {
      if n != name {
        assert connected[..1][..0] == [];
        assert Named(connected[..1], n) == [];
      }
    }
    assert Answers(connected[0], InstrumentPortFromConnectedPort(connected[1]));
  }

  /** The last gate of that name. */
  predicate LastNamed(listed: seq<Connection>, name: string, i: nat)
    requires i < |listed|
  {
    listed[i].name == name && forall j | i < j < |listed| :: listed[j].name != name
  }

  predicate NamesGate(listed: seq<Connection>, name: string) {
    exists k | 0 <= k < |listed| :: listed[k].name == name
  }

  /** The device's gates by name; a later one replaces an earlier one of the same name. */
  method GatesByName(listed: seq<Connection>) returns (gates: map<string, Connection>)
    ensures forall n :: n in gates <==> NamesGate(listed, n)
    ensures forall n | n in gates :: gates[n].name == n
    ensures forall n, i | 0 <= i < |listed| && LastNamed(listed, n, i) :: n in gates && gates[n] == listed[i]
  {
    gates := map[];
    for k := 0 to |listed|
      invariant forall n :: n in gates <==> NamesGate(listed[..k], n)
      invariant forall n | n in gates :: gates[n].name == n
      invariant forall n, i | 0 <= i < k && LastNamed(listed[..k], n, i) :: n in gates && gates[n] == listed[i]
    {
      forall n
        ensures NamesGate(listed[..k + 1], n) <==> NamesGate(listed[..k], n) || n == listed[k].name
        ensures forall i | 0 <= i < k && LastNamed(listed[..k + 1], n, i) ::
                  n != listed[k].name && LastNamed(listed[..k], n, i)
      {
        NamedUpTo(listed, k, n);
      }
      gates := gates[listed[k].name := listed[k]];
    }
    assert listed[..|listed|] == listed;
  }

  lemma NamedUpTo(listed: seq<Connection>, k: nat, n: string)
    requires k < |listed|
    ensures NamesGate(listed[..k + 1], n) <==> NamesGate(listed[..k], n) || n == listed[k].name
    ensures forall i | 0 <= i < k && LastNamed(listed[..k + 1], n, i) ::
              n != listed[k].name && LastNamed(listed[..k], n, i)
  {
    var before, now := listed[..k], listed[..k + 1];
    assert now == before + [listed[k]];
    if NamesGate(before, n) {
      var i :| 0 <= i < |before| && before[i].name == n;
      assert now[i].name == n;
    }
    assert now[k] == listed[k];
    forall i | 0 <= i < k && LastNamed(now, n, i)
      ensures n != listed[k].name && LastNamed(before, n, i)
    {
      assert now[k].name != n;
      assert forall j | i < j < k :: before[j] == now[j];
    }
  }

  /** Gate resolution writes each entry's gate in place and stops at the first unknown device name;
      a name stands for the last gate of the device that has it. */
  method ResolveWiremap(entries: array<WiremapEntry>, listed: seq<Connection>) returns (ok: bool)
    modifies entries
    ensures ok <==> forall i | 0 <= i < entries.Length ::
                      NamesGate(listed, old(entries[i].deviceName))
    ensures ok ==> forall i, k | 0 <= i < entries.Length && 0 <= k < |listed|
                                 && LastNamed(listed, old(entries[i].deviceName), k) ::
                     entries[i] == old(entries[i]).(gate := listed[k])
    ensures ok && (forall k | 0 <= k < |listed| :: listed[k].name != "") ==> GatesResolved(entries[..])
  {
    var gates := GatesByName(listed);
    for i := 0 to entries.Length
      invariant forall j | 0 <= j < i ::
                  && old(entries[j].deviceName) in gates
                  && entries[j] == old(entries[j]).(gate := gates[old(entries[j].deviceName)])
      invariant forall j | i <= j < entries.Length :: entries[j] == old(entries[j])
    {
      if entries[i].deviceName !in gates {
        return false;
      }
      entries[i] := entries[i].(gate := gates[entries[i].deviceName]);
    }
    ok := true;
  }
}
