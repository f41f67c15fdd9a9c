/** Giving the ports of an application exposed numbers that no other application uses. */
module ExposePorts {
  import opened Wrappers

  const MIN_PORT := 46800
  const MAX_PORT := 50000

  /** What the random generator can return. */
  type Exposed = x: int | MIN_PORT <= x < MAX_PORT witness MIN_PORT

  datatype Port = Port(name: string, host: string, port: int, exposePort: int, protocol: string, acl: bool)

  /** An exposed number together with a protocol. */
  datatype Key = Key(port: int, protocol: string)

  /** Attempt by attempt, the number genPort returns for a port; None when it is in use. */
  type Draws = (nat, nat) -> Option<Exposed>

  const ATTEMPTS := 5

  /** The empty protocol means both. */
  function Protos(protocol: string): seq<string> {
    if protocol == "" then ["tcp", "udp"] else [protocol]
  }

  function KeysAt(exposePort: int, protocol: string): set<Key> {
    set proto <- Protos(protocol) :: Key(exposePort, proto)
  }

  function KeysOf(p: Port): set<Key> {
    KeysAt(p.exposePort, p.protocol)
  }

  function AllKeys(ps: seq<Port>): set<Key> {
    set p <- ps, k <- KeysOf(p) :: k
  }

  function TakenBy(apps: seq<seq<Port>>): set<Key> {
    set app <- apps, k <- AllKeys(app) :: k
  }

  // ---------------------------------------------------------------------------------------
  // Specification

  predicate Preset(p: Port) {
    p.exposePort != 0
  }

  datatype Alloc = Alloc(ports: seq<Port>, taken: set<Key>)

  /** The first k ports served in order: preset ports are kept, every other port gets its last
      draw, or everything fails. */
  function Allocate(taken: set<Key>, ports: seq<Port>, draws: Draws, k: nat): Option<Alloc>
    requires k <= |ports|
  {
    if k == 0 then Some(Alloc([], taken)) else
    match Allocate(taken, ports, draws, k - 1)
    case None => None
    case Some(a) =>
      var p := ports[k - 1];
      if Preset(p) then Some(Alloc(a.ports + [p], a.taken)) else
      match draws(k - 1, ATTEMPTS - 1)
      case None => None
      case Some(x) =>
        if KeysAt(x, p.protocol) !! a.taken
        then Some(Alloc(a.ports + [p.(exposePort := x)], a.taken + KeysAt(x, p.protocol)))
        else None
  }

  /** ToAppTCPUDPPorts: one entry for each protocol. */
  function Expanded(ps: seq<Port>): seq<Port> {
    if ps == [] then [] else
    var p := ps[|ps| - 1];
    Expanded(ps[..|ps| - 1])
      + (if p.protocol == "" then [p.(protocol := "tcp"), p.(protocol := "udp")] else [p])
  }

  // ---------------------------------------------------------------------------------------
  // The code

  method ExistingKeys(apps: seq<seq<Port>>) returns (taken: set<Key>)
    ensures taken == TakenBy(apps)
  {
    taken := {};
    for i := 0 to |apps|
      invariant taken == TakenBy(apps[..i])
    {
      for j := 0 to |apps[i]|
        invariant taken == TakenBy(apps[..i]) + AllKeys(apps[i][..j])
      {
        var p := apps[i][j];
        assert apps[i][..j + 1] == apps[i][..j] + [p];
        taken := taken + KeysOf(p);
      }
      assert apps[i][..|apps[i]|] == apps[i];
      assert apps[..i + 1] == apps[..i] + [apps[i]];
    }
    assert apps[..|apps|] == apps;
  }

  /** Five attempts, whatever they give; the search for a free number only leaves its inner loop,
      so the last attempt decides. */
  method Draw(taken: set<Key>, protos: seq<string>, draws: Draws, i: nat) returns (last: Option<Exposed>)
    ensures last == draws(i, ATTEMPTS - 1)
  {
    last := None;
    for attempt := 0 to ATTEMPTS
      invariant attempt > 0 ==> last == draws(i, attempt - 1)
    {
      last := draws(i, attempt);
      if last.None? {
        continue;
      }
      for j := 0 to |protos| {
        if Key(last.value, protos[j]) !in taken {
          break;
        }
      }
    }
  }

  /** Takes the number for every protocol of a port, one after the other. */
  method Take(taken: set<Key>, x: Exposed, protocol: string) returns (ok: bool, after: set<Key>)
    ensures ok <==> KeysAt(x, protocol) !! taken
    ensures ok ==> after == taken + KeysAt(x, protocol)
  {
    var protos := Protos(protocol);
    after := taken;
    for j := 0 to |protos|
      invariant after == taken + set proto <- protos[..j] :: Key(x, proto)
      invariant forall proto <- protos[..j] :: Key(x, proto) !in taken
    {
      assert protos[..j + 1] == protos[..j] + [protos[j]];
      var key := Key(x, protos[j]);
      if key in after {
        assert protos[j] in protos && key in KeysAt(x, protocol);
        return false, after;
      }
      after := after + {key};
    }
    assert protos[..|protos|] == protos;
    ok := true;
  }

  method SetExposePorts(apps: seq<seq<Port>>, ports: array<Port>, draws: Draws) returns (ok: bool)
    modifies ports
    ensures ok <==> Allocate(TakenBy(apps), old(ports[..]), draws, ports.Length).Some?
    ensures ok ==> ports[..] == Allocate(TakenBy(apps), old(ports[..]), draws, ports.Length).value.ports
  {
    var existPorts := ExistingKeys(apps);
    ghost var taken := existPorts;
    ghost var before := ports[..];
    for i := 0 to ports.Length
      invariant forall j :: i <= j < ports.Length ==> ports[j] == before[j]
      invariant Allocate(taken, before, draws, i) == Some(Alloc(ports[..i], existPorts))
    {
      var p := ports[i];
      ghost var done := ports[..i];
      if p.exposePort == 0 {
        var drawn := Draw(existPorts, Protos(p.protocol), draws, i);
        if drawn.None? {
          AllocateFails(taken, before, draws, i + 1, ports.Length);
          return false;
        }
        var free;
        free, existPorts := Take(existPorts, drawn.value, p.protocol);
        if !free {
          AllocateFails(taken, before, draws, i + 1, ports.Length);
          return false;
        }
        ports[i] := p.(exposePort := drawn.value);
      }
      assert ports[..i] == done && ports[..i + 1] == done + [ports[i]];
    }
    assert ports[..ports.Length] == ports[..];
    ok := true;
  }

  lemma {:induction false} AllocateFails(taken: set<Key>, ports: seq<Port>, draws: Draws, k: nat, n: nat)
    requires k <= n <= |ports| && Allocate(taken, ports, draws, k).None?
    ensures Allocate(taken, ports, draws, n).None?
    decreases n
  {
    if k < n {
      AllocateFails(taken, ports, draws, k, n - 1);
    }
  }

  /** ToAppTCPUDPPorts, as a loop. */
  method ToAppTCPUDPPorts(ports: seq<Port>) returns (ret: seq<Port>)
    ensures ret == Expanded(ports)
  {
    ret := [];
    for i := 0 to |ports|
      invariant ret == Expanded(ports[..i])
    {
      assert ports[..i + 1][..i] == ports[..i];
      var protos := Protos(ports[i].protocol);
      ghost var before := ret;
      for j := 0 to |protos|
        invariant ret == before + seq(j, l requires 0 <= l < j => ports[i].(protocol := protos[l]))
      {
        ret := ret + [ports[i].(protocol := protos[j])];
      }
    }
    assert ports[..|ports|] == ports;
  }

  // ---------------------------------------------------------------------------------------
  // What an allocation gives

  ghost predicate Separated(ps: seq<Port>) {
    forall i, j :: 0 <= i < j < |ps| ==> KeysOf(ps[i]) !! KeysOf(ps[j])
  }

  predicate InRange(ps: seq<Port>) {
    forall p <- ps :: MIN_PORT <= p.exposePort < MAX_PORT
  }

  predicate NoPresets(ps: seq<Port>) {
    forall p <- ps :: !Preset(p)
  }

  lemma KeysAdd(ps: seq<Port>, p: Port)
    ensures AllKeys(ps + [p]) == AllKeys(ps) + KeysOf(p)
  {
    assert forall q :: q in ps + [p] <==> q in ps || q == p;
  }

  lemma SeparatedAdd(ps: seq<Port>, p: Port)
    requires Separated(ps) && KeysOf(p) !! AllKeys(ps)
    ensures Separated(ps + [p])
  {
    forall i | 0 <= i < |ps| ensures KeysOf(ps[i]) !! KeysOf(p) {
      assert KeysOf(ps[i]) <= AllKeys(ps);
    }
  }

  /** What a successful allocation gives the k-th port: a preset one is kept, any other keeps all but
      its number, which lies in the range, and gets pairs nobody had. */
  predicate Served(taken: set<Key>, p: Port, q: Port) {
    if Preset(p) then q == p
    else q.(exposePort := 0) == p && MIN_PORT <= q.exposePort < MAX_PORT && KeysOf(q) !! taken
  }

  /** A successful allocation serves every port, and no two drawn ports share a pair. */
  lemma {:induction false} AllocateIsSound(taken: set<Key>, ports: seq<Port>, draws: Draws, k: nat)
    requires k <= |ports| && Allocate(taken, ports, draws, k).Some?
    ensures
      var a := Allocate(taken, ports, draws, k).value;
      && |a.ports| == k && taken <= a.taken
      && (forall i :: 0 <= i < k ==> Served(taken, ports[i], a.ports[i]))
      && (forall i :: 0 <= i < k && !Preset(ports[i]) ==> KeysOf(a.ports[i]) <= a.taken)
      && (forall i, j :: 0 <= i < j < k && !Preset(ports[i]) && !Preset(ports[j]) ==>
            KeysOf(a.ports[i]) !! KeysOf(a.ports[j]))
  {
    if k == 0 {
    } else {
      AllocateIsSound(taken, ports, draws, k - 1);
    }
  }

  /** Expanding the empty protocol into both keeps the set of pairs. */
  lemma {:induction false} ExpandedKeepsKeys(ps: seq<Port>)
    ensures AllKeys(Expanded(ps)) == AllKeys(ps)
    decreases |ps|
  {
    if ps == [] {
    } else {
      var before, p := ps[..|ps| - 1], ps[|ps| - 1];
      assert ps == before + [p];
      ExpandedKeepsKeys(before);
      KeysAdd(before, p);
      if p.protocol == "" {
        var tcp, udp := p.(protocol := "tcp"), p.(protocol := "udp");
        KeysAdd(Expanded(before), tcp);
        KeysAdd(Expanded(before) + [tcp], udp);
        assert Expanded(ps) == Expanded(before) + [tcp] + [udp];
      } else {
        KeysAdd(Expanded(before), p);
      }
    }
  }

  /** Every expanded entry holds one pair. */
  lemma {:induction false} ExpandedHoldsOne(ps: seq<Port>)
    ensures forall p <- Expanded(ps) :: KeysOf(p) == {Key(p.exposePort, p.protocol)}
    decreases |ps|
  {
    if ps == [] {
    } else {
      var p := ps[|ps| - 1];
      ExpandedHoldsOne(ps[..|ps| - 1]);
      if p.protocol == "" {
        SplitKeys(p);
      } else {
        assert Protos(p.protocol) == [p.protocol];
      }
    }
  }

  /** Ports that share no pair expand to entries that share none. */
  lemma {:induction false} ExpandedKeepsSeparated(ps: seq<Port>)
    requires Separated(ps)
    ensures Separated(Expanded(ps))
    decreases |ps|
  {
    if ps == [] {
    } else {
      var before, p := ps[..|ps| - 1], ps[|ps| - 1];
      assert ps == before + [p];
      LastIsSeparated(before, p);
      ExpandedKeepsSeparated(before);
      ExpandedKeepsKeys(before);
      if p.protocol == "" {
        var tcp, udp := p.(protocol := "tcp"), p.(protocol := "udp");
        SplitKeys(p);
        SeparatedAdd(Expanded(before), tcp);
        KeysAdd(Expanded(before), tcp);
        SeparatedAdd(Expanded(before) + [tcp], udp);
        assert Expanded(ps) == Expanded(before) + [tcp] + [udp];
      } else {
        SeparatedAdd(Expanded(before), p);
      }
    }
  }

  lemma SplitKeys(p: Port)
    requires p.protocol == ""
    ensures KeysOf(p.(protocol := "tcp")) == {Key(p.exposePort, "tcp")}
    ensures KeysOf(p.(protocol := "udp")) == {Key(p.exposePort, "udp")}
    ensures KeysOf(p) == {Key(p.exposePort, "tcp"), Key(p.exposePort, "udp")}
  {
    assert "tcp" in Protos("") && "udp" in Protos("");
    assert "tcp"[0] != "udp"[0];
  }

  lemma InRangeOfConcat(a: seq<Port>, b: seq<Port>)
    ensures InRange(a + b) <==> InRange(a) && InRange(b)
  {
    assert forall p :: p in a + b <==> p in a || p in b;
  }

  lemma {:induction false} ExpandedKeepsRange(ps: seq<Port>)
    ensures InRange(Expanded(ps)) <==> InRange(ps)
    decreases |ps|
  {
    if ps == [] {
    } else {
      var before, p := ps[..|ps| - 1], ps[|ps| - 1];
      ExpandedKeepsRange(before);
      var rest := if p.protocol == "" then [p.(protocol := "tcp"), p.(protocol := "udp")] else [p];
      assert Expanded(ps) == Expanded(before) + rest && ps == before + [p];
      assert InRange(rest) <==> InRange([p]) by { assert rest[0] in rest && p in [p]; }
      InRangeOfConcat(Expanded(before), rest);
      InRangeOfConcat(before, [p]);
    }
  }

  /** Entries that share no pair come from ports that share none. */
  lemma {:induction false} ExpandedReflectsSeparated(ps: seq<Port>)
    requires Separated(Expanded(ps))
    ensures Separated(ps)
    decreases |ps|
  {
    if ps == [] {
    } else {
      var before, p := ps[..|ps| - 1], ps[|ps| - 1];
      var e := Expanded(before);
      var rest := if p.protocol == "" then [p.(protocol := "tcp"), p.(protocol := "udp")] else [p];
      assert Expanded(ps) == e + rest && ps == before + [p];
      assert forall i :: 0 <= i < |e| ==> e[i] == Expanded(ps)[i];
      ExpandedReflectsSeparated(before);
      ExpandedKeepsKeys(before);
      forall k | k in KeysOf(p) ensures k !in AllKeys(e) {
        RestHasKey(p, rest, k);
        var j :| 0 <= j < |rest| && k in KeysOf(rest[j]);
        forall i | 0 <= i < |e| ensures k !in KeysOf(e[i]) {
          assert Expanded(ps)[i] == e[i] && Expanded(ps)[|e| + j] == rest[j];
        }
      }
      SeparatedAdd(before, p);
    }
  }

  lemma RestHasKey(p: Port, rest: seq<Port>, k: Key)
    requires rest == if p.protocol == "" then [p.(protocol := "tcp"), p.(protocol := "udp")] else [p]
    requires k in KeysOf(p)
    ensures exists j :: 0 <= j < |rest| && k in KeysOf(rest[j])
  {
    if p.protocol == "" {
      SplitKeys(p);
      assert k in KeysOf(rest[if k.protocol == "tcp" then 0 else 1]);
    } else {
      assert k in KeysOf(rest[0]);
    }
  }

  lemma LastIsSeparated(ps: seq<Port>, p: Port)
    requires Separated(ps + [p])
    ensures Separated(ps) && KeysOf(p) !! AllKeys(ps)
  {
    assert forall i :: 0 <= i < |ps| ==> (ps + [p])[i] == ps[i];
    forall q | q in ps ensures KeysOf(q) !! KeysOf(p) {
      var i :| 0 <= i < |ps| && ps[i] == q;
      assert (ps + [p])[|ps|] == p;
    }
  }

  /** Installed applications come and go one after the other. */
  datatype Event = Install(ports: seq<Port>, draws: Draws) | Uninstall(index: nat)

  function Step(apps: seq<seq<Port>>, e: Event): seq<seq<Port>> {
    match e
    case Install(ports, draws) =>
      (match Allocate(TakenBy(apps), ports, draws, |ports|)
       case None => apps
       case Some(a) => apps + [Expanded(a.ports)])
    case Uninstall(i) => if i < |apps| then apps[..i] + apps[i + 1..] else apps
  }

  function Run(es: seq<Event>): seq<seq<Port>> {
    if es == [] then [] else Step(Run(es[..|es| - 1]), es[|es| - 1])
  }

  ghost predicate NoClash(apps: seq<seq<Port>>) {
    && (forall app <- apps :: Separated(app) && InRange(app))
    && (forall i, j :: 0 <= i < j < |apps| ==> AllKeys(apps[i]) !! AllKeys(apps[j]))
  }

  // ---------------------------------------------------------------------------------------
  // When nothing clashes

  /** Every preset number lies in the range, and its pairs are neither taken nor held by any other
      port of the same application, preset or drawn. */
  ghost predicate PresetsFit(taken: set<Key>, ports: seq<Port>, numbered: seq<Port>)
    requires |ports| == |numbered|
  {
    forall i :: 0 <= i < |ports| && Preset(ports[i]) ==>
      && MIN_PORT <= ports[i].exposePort < MAX_PORT && KeysOf(ports[i]) !! taken
      && forall j :: 0 <= j < |ports| && j != i ==> KeysOf(ports[i]) !! KeysOf(numbered[j])
  }

  /** What can be checked before the install: the presets lie in the range, are not taken, share no
      pair among themselves, and share no protocol with a port that still gets a number. */
  ghost predicate PresetsFitBeforehand(taken: set<Key>, ports: seq<Port>) {
    forall i :: 0 <= i < |ports| && Preset(ports[i]) ==>
      && MIN_PORT <= ports[i].exposePort < MAX_PORT && KeysOf(ports[i]) !! taken
      && forall j :: 0 <= j < |ports| && j != i ==>
           if Preset(ports[j]) then KeysOf(ports[i]) !! KeysOf(ports[j])
           else forall proto <- Protos(ports[j].protocol) :: proto !in Protos(ports[i].protocol)
  }

  /** Then they fit whatever is drawn. */
  lemma FitWhateverIsDrawn(taken: set<Key>, ports: seq<Port>, draws: Draws)
    requires PresetsFitBeforehand(taken, ports) && Allocate(taken, ports, draws, |ports|).Some?
    ensures
      var a := Allocate(taken, ports, draws, |ports|).value;
      |a.ports| == |ports| && PresetsFit(taken, ports, a.ports)
  {
    AllocateIsSound(taken, ports, draws, |ports|);
    var q := Allocate(taken, ports, draws, |ports|).value.ports;
    forall i, j | 0 <= i < |ports| && Preset(ports[i]) && 0 <= j < |ports| && j != i
      ensures KeysOf(ports[i]) !! KeysOf(q[j])
    {
      assert Served(taken, ports[j], q[j]);
    }
  }

  lemma NumberedFitExactly(taken: set<Key>, ports: seq<Port>, draws: Draws)
    requires Allocate(taken, ports, draws, |ports|).Some?
    ensures
      var a := Allocate(taken, ports, draws, |ports|).value;
      |a.ports| == |ports| &&
      (Separated(a.ports) && InRange(a.ports) && AllKeys(a.ports) !! taken <==> PresetsFit(taken, ports, a.ports))
  {
    AllocateIsSound(taken, ports, draws, |ports|);
    var q := Allocate(taken, ports, draws, |ports|).value.ports;
    if Separated(q) && InRange(q) && AllKeys(q) !! taken {
      forall i | 0 <= i < |ports| && Preset(ports[i])
        ensures MIN_PORT <= ports[i].exposePort < MAX_PORT && KeysOf(ports[i]) !! taken
        ensures forall j :: 0 <= j < |ports| && j != i ==> KeysOf(ports[i]) !! KeysOf(q[j])
      {
        assert Served(taken, ports[i], q[i]) && q[i] in q && KeysOf(q[i]) <= AllKeys(q);
      }
    }
    if PresetsFit(taken, ports, q) {
      assert forall i :: 0 <= i < |ports| ==> Served(taken, ports[i], q[i]);
    }
  }

  /** A successful install keeps a cluster without clashes free of them exactly when the presets
      fit: nothing but a preset number can clash. */
  lemma InstallKeepsNoClashExactly(apps: seq<seq<Port>>, ports: seq<Port>, draws: Draws)
    requires NoClash(apps) && Allocate(TakenBy(apps), ports, draws, |ports|).Some?
    ensures
      var a := Allocate(TakenBy(apps), ports, draws, |ports|).value;
      |a.ports| == |ports|
      && (NoClash(Step(apps, Install(ports, draws))) <==> PresetsFit(TakenBy(apps), ports, a.ports))
  {
    var q := Allocate(TakenBy(apps), ports, draws, |ports|).value.ports;
    NumberedFitExactly(TakenBy(apps), ports, draws);
    AddedClashExactly(apps, q);
  }

  lemma AddedClashExactly(apps: seq<seq<Port>>, q: seq<Port>)
    requires NoClash(apps)
    ensures NoClash(apps + [Expanded(q)]) <==> Separated(q) && InRange(q) && AllKeys(q) !! TakenBy(apps)
  {
    var next := apps + [Expanded(q)];
    ExpandedKeepsKeys(q);
    ExpandedKeepsRange(q);
    if Separated(q) && InRange(q) && AllKeys(q) !! TakenBy(apps) {
      ExpandedKeepsSeparated(q);
      forall i | 0 <= i < |apps| ensures AllKeys(apps[i]) !! AllKeys(q) {
        assert AllKeys(apps[i]) <= TakenBy(apps);
      }
    }
    if NoClash(next) {
      assert next[|apps|] in next;
      ExpandedReflectsSeparated(q);
      forall k | k in TakenBy(apps) ensures k !in AllKeys(q) {
        var i :| 0 <= i < |apps| && k in AllKeys(apps[i]);
        assert next[i] == apps[i] && next[|apps|] == Expanded(q);
      }
    }
  }

  lemma UninstallKeepsNoClash(apps: seq<seq<Port>>, i: nat)
    requires NoClash(apps)
    ensures NoClash(Step(apps, Uninstall(i)))
  {
  }

  /** The presets of an install that succeeds fit. */
  ghost predicate Fits(apps: seq<seq<Port>>, e: Event) {
    e.Install? && Allocate(TakenBy(apps), e.ports, e.draws, |e.ports|).Some? ==>
      var a := Allocate(TakenBy(apps), e.ports, e.draws, |e.ports|).value;
      |a.ports| == |e.ports| && PresetsFit(TakenBy(apps), e.ports, a.ports)
  }

  lemma StepKeepsNoClashExactly(apps: seq<seq<Port>>, e: Event)
    requires NoClash(apps)
    ensures NoClash(Step(apps, e)) <==> Fits(apps, e)
  {
    match e
    case Install(ports, draws) =>
      if Allocate(TakenBy(apps), ports, draws, |ports|).Some? {
        InstallKeepsNoClashExactly(apps, ports, draws);
      }
    case Uninstall(i) => UninstallKeepsNoClash(apps, i);
  }

  ghost predicate AllFit(es: seq<Event>) {
    es == [] || (AllFit(es[..|es| - 1]) && Fits(Run(es[..|es| - 1]), es[|es| - 1]))
  }

  /** Over any sequence of installs and uninstalls, no pair of exposed number and protocol is ever
      held twice, within or across applications, and all numbers lie in the range, if and only if
      the preset numbers of every install that succeeded fitted. */
  lemma {:induction false} PortsNeverClashExactly(es: seq<Event>)
    ensures NeverClash(es) <==> AllFit(es)
    decreases |es|
  {
    if es == [] {
    } else {
      var before := es[..|es| - 1];
      PortsNeverClashExactly(before);
      if NeverClash(before) {
        StepKeepsNoClashExactly(Run(before), es[|es| - 1]);
      }
    }
  }

  /** No clash now or at any earlier point of the run. */
  ghost predicate NeverClash(es: seq<Event>) {
    NoClash(Run(es)) && (es != [] ==> NeverClash(es[..|es| - 1]))
  }

  /** In particular, ports that all start without a number never clash. */
  lemma {:induction false} PortsNeverClash(es: seq<Event>)
    requires forall e <- es :: e.Install? ==> NoPresets(e.ports)
    ensures NoClash(Run(es))
  {
    NoPresetsFit(es);
    PortsNeverClashExactly(es);
  }

  lemma {:induction false} NoPresetsFit(es: seq<Event>)
    requires forall e <- es :: e.Install? ==> NoPresets(e.ports)
    ensures AllFit(es)
    decreases |es|
  {
    if es == [] {
    } else {
      var apps, e := Run(es[..|es| - 1]), es[|es| - 1];
      NoPresetsFit(es[..|es| - 1]);
      if e.Install? && Allocate(TakenBy(apps), e.ports, e.draws, |e.ports|).Some? {
        AllocateIsSound(TakenBy(apps), e.ports, e.draws, |e.ports|);
      }
    }
  }

  // ---------------------------------------------------------------------------------------
  // Preset numbers that clash

  /** Preset numbers are never checked: they are accepted unchanged whatever is taken. */
  lemma {:induction false} PresetsAreNotChecked(taken: set<Key>, ports: seq<Port>, draws: Draws, k: nat)
    requires k <= |ports| && forall p <- ports :: Preset(p)
    ensures Allocate(taken, ports, draws, k) == Some(Alloc(ports[..k], taken))
  {
    if k == 0 {
    } else {
      PresetsAreNotChecked(taken, ports, draws, k - 1);
      assert Preset(ports[k - 1]);
      assert ports[..k] == ports[..k - 1] + [ports[k - 1]];
    }
  }

  lemma InstallPreset(apps: seq<seq<Port>>, p: Port, draws: Draws)
    requires Preset(p)
    ensures Step(apps, Install([p], draws)) == apps + [Expanded([p])]
  {
    PresetsAreNotChecked(TakenBy(apps), [p], draws, 1);
    assert [p][..1] == [p];
  }

  lemma HasKey(p: Port)
    ensures KeysOf(p) != {}
  {
    assert Protos(p.protocol)[0] in Protos(p.protocol);
    assert Key(p.exposePort, Protos(p.protocol)[0]) in KeysOf(p);
  }

  /** Two applications that preset the same number both install. */
  lemma PresetsCanClash(p: Port, draws: Draws)
    requires Preset(p)
    ensures !NoClash(Step(Step([], Install([p], draws)), Install([p], draws)))
  {
    InstallPreset([], p, draws);
    var one := [Expanded([p])];
    assert [] + one == one;
    InstallPreset(one, p, draws);
    var apps := one + one;
    assert apps == [Expanded([p]), Expanded([p])];
    ExpandedKeepsKeys([p]);
    HasKey(p);
    var k :| k in KeysOf(p);
    assert KeysOf(p) <= AllKeys([p]);
    assert k in AllKeys(apps[0]) && k in AllKeys(apps[1]);
  }

  /** Within one application a drawn number can meet a preset one, since presets are not recorded as
      taken. */
  lemma DrawCanMeetPreset(p: Port, draws: Draws)
    requires MIN_PORT <= p.exposePort < MAX_PORT && draws(1, ATTEMPTS - 1) == Some(p.exposePort)
    ensures !NoClash(Step([], Install([p, p.(exposePort := 0)], draws)))
  {
    var ports := [p, p.(exposePort := 0)];
    assert TakenBy([]) == {};
    assert Allocate({}, ports, draws, 0) == Some(Alloc([], {}));
    assert Allocate({}, ports, draws, 1) == Some(Alloc([] + [p], {}));
    var numbered := [] + [p] + [p];
    assert Allocate({}, ports, draws, 2).Some? && Allocate({}, ports, draws, 2).value.ports == numbered;
    HasKey(p);
    InstallKeepsNoClashExactly([], ports, draws);
    assert !PresetsFit({}, ports, numbered) by {
      assert Preset(ports[0]) && numbered[1] == ports[0];
    }
  }

  // ---------------------------------------------------------------------------------------
  // When an allocation succeeds

  /** The pairs a port without a number gets from its fifth draw. */
  function Drawn(ports: seq<Port>, draws: Draws, i: nat): set<Key>
    requires i < |ports|
  {
    match draws(i, 4)
    case None => {}
    case Some(x) => KeysAt(x, ports[i].protocol)
  }

  /** The fifth draw of port i gives a number, free in the cluster and among the ports before it. */
  predicate DrawFits(taken: set<Key>, ports: seq<Port>, draws: Draws, i: nat)
    requires i < |ports|
  {
    && draws(i, 4).Some? && Drawn(ports, draws, i) !! taken
    && forall j: nat :: j < i && ports[j].exposePort == 0 ==> Drawn(ports, draws, i) !! Drawn(ports, draws, j)
  }

  lemma {:induction false} TakenMeans(taken: set<Key>, ports: seq<Port>, draws: Draws, k: nat, key: Key)
    requires k <= |ports| && Allocate(taken, ports, draws, k).Some?
    ensures key in Allocate(taken, ports, draws, k).value.taken <==>
      key in taken || exists j: nat :: j < k && ports[j].exposePort == 0 && key in Drawn(ports, draws, j)
  {
    if k == 0 {
    } else {
      TakenMeans(taken, ports, draws, k - 1, key);
    }
  }

  lemma LastFitsExactly(taken: set<Key>, ports: seq<Port>, draws: Draws, k: nat)
    requires k < |ports| && ports[k].exposePort == 0 && Allocate(taken, ports, draws, k).Some? && draws(k, 4).Some?
    ensures Drawn(ports, draws, k) !! Allocate(taken, ports, draws, k).value.taken <==> DrawFits(taken, ports, draws, k)
  {
    forall key ensures key in Allocate(taken, ports, draws, k).value.taken <==>
      key in taken || exists j: nat :: j < k && ports[j].exposePort == 0 && key in Drawn(ports, draws, j)
    {
      TakenMeans(taken, ports, draws, k, key);
    }
  }

  /** An allocation succeeds if and only if the fifth draw of every port without a number fits. No
      other draw and no preset number matters. */
  lemma {:induction false} AllocateSucceedsExactly(taken: set<Key>, ports: seq<Port>, draws: Draws, k: nat)
    requires k <= |ports|
    ensures
      Allocate(taken, ports, draws, k).Some? <==>
      forall i: nat :: i < k && ports[i].exposePort == 0 ==> DrawFits(taken, ports, draws, i)
  {
    if k == 0 {
    } else {
      AllocateSucceedsExactly(taken, ports, draws, k - 1);
      if Allocate(taken, ports, draws, k - 1).Some? && ports[k - 1].exposePort == 0 && draws(k - 1, 4).Some? {
        LastFitsExactly(taken, ports, draws, k - 1);
      }
    }
  }

  /** Then those ports get the number of their fifth draw, and every other port keeps its own. */
  lemma {:induction false} AllocateGivesLastDraw(taken: set<Key>, ports: seq<Port>, draws: Draws, k: nat)
    requires k <= |ports| && Allocate(taken, ports, draws, k).Some?
    ensures
      var a := Allocate(taken, ports, draws, k).value;
      |a.ports| == k && forall i: nat :: i < k ==>
        if ports[i].exposePort != 0 then a.ports[i] == ports[i]
        else draws(i, 4).Some? && a.ports[i] == ports[i].(exposePort := draws(i, 4).value)
  {
    if k == 0 {
    } else {
      AllocateGivesLastDraw(taken, ports, draws, k - 1);
    }
  }
}
