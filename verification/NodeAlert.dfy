/** Alerts about memory, disk and process pressure on nodes, at most one an hour while it lasts. */
module NodeAlert {
  import opened Wrappers

  datatype PressureType = MemoryPressure | DiskPressure | PIDPressure

  datatype Condition = Condition(kind: string, isTrue: bool)

  datatype Node = Node(name: string, conditions: seq<Condition>)

  /** In seconds. */
  const HOUR := 3600

  /** One check of one pressure type: the clock when it starts, when the message is stamped and
      when the publish call has returned, and whether that call succeeds. */
  datatype Clock = Clock(checked: nat, stamped: nat, returned: nat, published: bool)

  datatype Alert = Alert(key: string, pressure: bool, stamp: nat)

  /** The two maps of the controller, and all alerts sent so far. */
  datatype Memory = Memory(lastAlertTime: map<string, nat>, lastPressureState: map<string, bool>, sent: seq<Alert>)

  const EMPTY := Memory(map[], map[], [])

  function NameOf(t: PressureType): string {
    match t
    case MemoryPressure => "MemoryPressure"
    case DiskPressure => "DiskPressure"
    case PIDPressure => "PIDPressure"
  }

  function KeyOf(node: string, t: PressureType): string {
    node + "-" + NameOf(t)
  }

  /** The first condition of the type decides. */
  function PressureOn(cs: seq<Condition>, t: PressureType): bool {
    if cs == [] then false
    else if cs[0].kind == NameOf(t) then cs[0].isTrue
    else PressureOn(cs[1..], t)
  }

  // ---------------------------------------------------------------------------------------
  // Specification of one check

  function Remembered(m: Memory, key: string): bool {
    key in m.lastPressureState && m.lastPressureState[key]
  }

  predicate Due(m: Memory, key: string, now: nat) {
    key in m.lastAlertTime ==> now - m.lastAlertTime[key] >= HOUR
  }

  /** An alert is wanted when the pressure changed, or lasts and the last alert is an hour old. */
  predicate AlertWanted(m: Memory, key: string, pressure: bool, now: nat) {
    Remembered(m, key) != pressure || (pressure && Due(m, key, now))
  }

  function Sent(m: Memory, key: string, pressure: bool, c: Clock): Memory {
    Memory(if pressure then m.lastAlertTime[key := c.returned] else m.lastAlertTime,
           m.lastPressureState[key := pressure], m.sent + [Alert(key, pressure, c.stamped)])
  }

  /** A failed publish leaves everything as it was. */
  function Checked(m: Memory, key: string, pressure: bool, c: Clock): Memory {
    if !AlertWanted(m, key, pressure, c.checked) then m.(lastPressureState := m.lastPressureState[key := pressure])
    else if c.published then Sent(m, key, pressure, c)
    else m
  }

  // ---------------------------------------------------------------------------------------
  // The controller

  class NodeAlertController {
    var lastAlertTime: map<string, nat>
    var lastPressureState: map<string, bool>
    ghost var sent: seq<Alert>

    constructor ()
      ensures Value() == EMPTY
    {
      lastAlertTime, lastPressureState, sent := map[], map[], [];
    }

    ghost function Value(): Memory
      reads this
    {
      Memory(lastAlertTime, lastPressureState, sent)
    }

    method ShouldSendAlert(key: string, now: nat) returns (should: bool)
      ensures should <==> Due(Value(), key, now)
    {
      if key !in lastAlertTime {
        return true;
      }
      return now - lastAlertTime[key] >= HOUR;
    }

    method SendNodeAlert(key: string, pressure: bool, c: Clock) returns (ok: bool)
      modifies this
      ensures ok <==> c.published
      ensures lastPressureState == old(lastPressureState)
      ensures !ok ==> Value() == old(Value())
      ensures ok ==> sent == old(sent) + [Alert(key, pressure, c.stamped)]
      ensures ok ==> lastAlertTime == if pressure then old(lastAlertTime)[key := c.returned] else old(lastAlertTime)
    {
      if !c.published {
        return false;
      }
      sent := sent + [Alert(key, pressure, c.stamped)];
      if pressure {
        lastAlertTime := lastAlertTime[key := c.returned];
      }
      ok := true;
    }

    static method ReadPressure(cs: seq<Condition>, t: PressureType) returns (pressure: bool)
      ensures pressure == PressureOn(cs, t)
    {
      pressure := false;
      for i := 0 to |cs|
        invariant !pressure && PressureOn(cs, t) == PressureOn(cs[i..], t)
      {
        if cs[i].kind == NameOf(t) {
          return cs[i].isTrue;
        }
      }
    }

    method CheckPressureStateChange(node: Node, t: PressureType, c: Clock) returns (ok: bool)
      modifies this
      ensures
        var key, pressure := KeyOf(node.name, t), PressureOn(node.conditions, t);
        Value() == Checked(old(Value()), key, pressure, c)
        && (ok <==> AlertWanted(old(Value()), key, pressure, c.checked) ==> c.published)
    {
      var pressure := ReadPressure(node.conditions, t);
      var key := KeyOf(node.name, t);
      var lastPressure := key in lastPressureState && lastPressureState[key];
      ok := true;
      if lastPressure != pressure {
        ok := SendNodeAlert(key, pressure, c);
      } else if pressure {
        var should := ShouldSendAlert(key, c.checked);
        if should {
          ok := SendNodeAlert(key, true, c);
        }
      }
      if ok {
        lastPressureState := lastPressureState[key := pressure];
      }
    }

    /** The three types in order, up to the first failed publish. */
    method CheckNodePressure(node: Node, cs: seq<Clock>) returns (ok: bool)
      requires |cs| == 3
      modifies this
      ensures Value() == CheckedAll(old(Value()), node, cs, 3).m && ok == CheckedAll(old(Value()), node, cs, 3).ok
    {
      ok := true;
      for i := 0 to 3
        invariant CheckedAll(old(Value()), node, cs, i) == Outcome(Value(), true)
      {
        ok := CheckPressureStateChange(node, TYPES[i], cs[i]);
        if !ok {
          StoppedStays(old(Value()), node, cs, i + 1);
          return;
        }
      }
    }
  }

  const TYPES := [MemoryPressure, DiskPressure, PIDPressure]

  datatype Outcome = Outcome(m: Memory, ok: bool)

  function CheckedAll(m: Memory, node: Node, cs: seq<Clock>, n: nat): Outcome
    requires |cs| == 3 && n <= 3
  {
    if n == 0 then Outcome(m, true) else
    var o := CheckedAll(m, node, cs, n - 1);
    if !o.ok then o else
    var key, pressure := KeyOf(node.name, TYPES[n - 1]), PressureOn(node.conditions, TYPES[n - 1]);
    Outcome(Checked(o.m, key, pressure, cs[n - 1]),
            AlertWanted(o.m, key, pressure, cs[n - 1].checked) ==> cs[n - 1].published)
  }

  lemma {:induction false} StoppedStays(m: Memory, node: Node, cs: seq<Clock>, n: nat)
    requires |cs| == 3 && n <= 3 && !CheckedAll(m, node, cs, n).ok
    ensures CheckedAll(m, node, cs, 3) == CheckedAll(m, node, cs, n)
    decreases 3 - n
  {
    if n == 3 {
    } else {
      StoppedStays(m, node, cs, n + 1);
    }
  }

  // ---------------------------------------------------------------------------------------
  // Keys

  predicate NoDash(x: string) {
    forall i :: 0 <= i < |x| ==> x[i] != '-'
  }

  /** The last dash tells where a key splits. */
  lemma SplitAtLastDash(a: string, x: string, b: string, y: string)
    requires NoDash(x) && NoDash(y) && a + "-" + x == b + "-" + y
    ensures a == b && x == y
  {
    var k := a + "-" + x;
    assert k[|a|] == '-' && k[|b|] == '-';
    assert a == k[..|a|] && b == (b + "-" + y)[..|b|];
    assert x == k[|a| + 1..] && y == (b + "-" + y)[|b| + 1..];
  }

  lemma NamesHaveNoDash(t: PressureType)
    ensures NoDash(NameOf(t))
  {
  }

  /** Different nodes or types never share a key. */
  lemma KeysAreInjective(a: string, s: PressureType, b: string, t: PressureType)
    requires KeyOf(a, s) == KeyOf(b, t)
    ensures a == b && s == t
  {
    NamesHaveNoDash(s);
    NamesHaveNoDash(t);
    SplitAtLastDash(a, NameOf(s), b, NameOf(t));
    assert |NameOf(MemoryPressure)| == 14 && |NameOf(DiskPressure)| == 12 && |NameOf(PIDPressure)| == 11;
  }

  // ---------------------------------------------------------------------------------------
  // The log over any sequence of checks

  datatype Check = Check(key: string, pressure: bool, clock: Clock)

  function Run(cs: seq<Check>): Memory {
    if cs == [] then EMPTY else
    var c := cs[|cs| - 1];
    Checked(Run(cs[..|cs| - 1]), c.key, c.pressure, c.clock)
  }

  /** A message is stamped after the check started and before the publish call has returned. */
  predicate InOrder(c: Clock) {
    c.checked <= c.stamped <= c.returned
  }

  function LastFor(log: seq<Alert>, key: string): Option<Alert> {
    if log == [] then None
    else if log[|log| - 1].key == key then Some(log[|log| - 1])
    else LastFor(log[..|log| - 1], key)
  }

  /** What an alert may follow: a recovery only a pressure alert, a pressure alert nothing, a
      recovery, or a pressure alert at least an hour older. */
  predicate MayFollow(last: Option<Alert>, a: Alert) {
    if a.pressure then last.Some? && last.value.pressure ==> a.stamp - last.value.stamp >= HOUR
    else last.Some? && last.value.pressure
  }

  ghost predicate LogOk(log: seq<Alert>) {
    forall i :: 0 <= i < |log| ==> MayFollow(LastFor(log[..i], log[i].key), log[i])
  }

  /** The memory of a key says what its last alert said, and when. */
  predicate KeyOk(m: Memory, key: string) {
    var last := LastFor(m.sent, key);
    && Remembered(m, key) == (last.Some? && last.value.pressure)
    && (last.Some? && last.value.pressure ==> key in m.lastAlertTime && last.value.stamp <= m.lastAlertTime[key])
  }

  lemma LogGrows(log: seq<Alert>, a: Alert)
    requires LogOk(log) && MayFollow(LastFor(log, a.key), a)
    ensures LogOk(log + [a])
  {
    assert (log + [a])[..|log|] == log;
    assert forall i :: 0 <= i < |log| ==> (log + [a])[..i] == log[..i];
  }

  lemma KeyKept(m: Memory, c: Check, key: string)
    requires KeyOk(m, key) && KeyOk(m, c.key) && InOrder(c.clock)
    ensures KeyOk(Checked(m, c.key, c.pressure, c.clock), key)
  {
    var a := Alert(c.key, c.pressure, c.clock.stamped);
    assert (m.sent + [a])[..|m.sent|] == m.sent;
  }

  lemma CheckedKeeps(m: Memory, c: Check)
    requires LogOk(m.sent) && forall key :: KeyOk(m, key)
    requires InOrder(c.clock)
    ensures
      var r := Checked(m, c.key, c.pressure, c.clock);
      LogOk(r.sent) && forall key :: KeyOk(r, key)
  {
    assert KeyOk(m, c.key);
    if AlertWanted(m, c.key, c.pressure, c.clock.checked) && c.clock.published {
      LogGrows(m.sent, Alert(c.key, c.pressure, c.clock.stamped));
    }
    forall key ensures KeyOk(Checked(m, c.key, c.pressure, c.clock), key) {
      KeyKept(m, c, key);
    }
  }

  /** For every key, over any sequence of observations and publish failures: the remembered pressure
      is the status of the last alert sent, two consecutive pressure alerts are at least an hour
      apart, and a recovery always follows a pressure alert. */
  lemma {:induction false} AlertLog(cs: seq<Check>)
    requires forall c <- cs :: InOrder(c.clock)
    ensures LogOk(Run(cs).sent) && forall key :: KeyOk(Run(cs), key)
    decreases |cs|
  {
    if cs == [] {
    } else {
      AlertLog(cs[..|cs| - 1]);
      CheckedKeeps(Run(cs[..|cs| - 1]), cs[|cs| - 1]);
    }
  }

  // ---------------------------------------------------------------------------------------
  // What is reported

  /** Any time remembered for a key is the time some check of that key returned. */
  lemma {:induction false} TimesAreReturns(cs: seq<Check>, key: string)
    requires key in Run(cs).lastAlertTime
    ensures exists c <- cs :: c.key == key && c.clock.returned == Run(cs).lastAlertTime[key]
    decreases |cs|
  {
    assert cs == [] ==> Run(cs) == EMPTY;
    if cs != [] {
      var before, last := cs[..|cs| - 1], cs[|cs| - 1];
      assert cs == before + [last];
      if key in Run(before).lastAlertTime {
        TimesAreReturns(before, key);
      }
    }
  }

  /** After any sequence of checks: a check whose observation differs from the last alert of its key,
      where none counts as no pressure, sends an alert with that observation as soon as it is
      published; one that agrees and sees no pressure sends none; and one that is not published
      sends none. */
  lemma ChangeIsReported(cs: seq<Check>, c: Check)
    requires forall d <- cs :: InOrder(d.clock)
    ensures
      var before, after := Run(cs).sent, Run(cs + [c]).sent;
      var last := LastFor(before, c.key);
      var reported := last.Some? && last.value.pressure;
      && (c.clock.published && c.pressure != reported ==>
            after == before + [Alert(c.key, c.pressure, c.clock.stamped)])
      && (!c.clock.published || (!c.pressure && !reported) ==> after == before)
  {
    AlertLog(cs);
    assert KeyOk(Run(cs), c.key);
    assert (cs + [c])[..|cs|] == cs;
  }

  /** A pressure that lasts is reported again: if no check of the key has returned in the hour before
      this one started, a published check that sees pressure sends an alert. */
  lemma LastingIsRepeated(cs: seq<Check>, c: Check)
    requires c.pressure && c.clock.published
    requires forall d <- cs :: d.key == c.key ==> d.clock.returned + 3600 <= c.clock.checked
    ensures Run(cs + [c]).sent == Run(cs).sent + [Alert(c.key, true, c.clock.stamped)]
  {
    assert (cs + [c])[..|cs|] == cs;
    if c.key in Run(cs).lastAlertTime {
      TimesAreReturns(cs, c.key);
    }
  }

  // ---------------------------------------------------------------------------------------
  // Checking a node

  /** The first condition of the type says whether there is pressure; without one there is none. */
  lemma {:induction false} PressureMeans(cs: seq<Condition>, t: PressureType)
    ensures PressureOn(cs, t) <==>
      exists i :: 0 <= i < |cs| && cs[i].kind == NameOf(t) && cs[i].isTrue
                  && forall j :: 0 <= j < i ==> cs[j].kind != NameOf(t)
  {
    if cs == [] {
    } else {
      var rest := cs[1..];
      PressureMeans(rest, t);
      if PressureOn(rest, t) && cs[0].kind != NameOf(t) {
        var i :| 0 <= i < |rest| && rest[i].kind == NameOf(t) && rest[i].isTrue
                 && forall j :: 0 <= j < i ==> rest[j].kind != NameOf(t);
        assert cs[i + 1] == rest[i];
        assert forall j :: 1 <= j < i + 1 ==> cs[j] == rest[j - 1];
      }
      if i :| 0 <= i < |cs| && cs[i].kind == NameOf(t) && cs[i].isTrue
              && forall j :: 0 <= j < i ==> cs[j].kind != NameOf(t) {
        if i > 0 {
          assert rest[i - 1] == cs[i];
          assert forall j :: 0 <= j < i - 1 ==> rest[j] == cs[j + 1];
        }
      }
    }
  }

  /** The checks of one node: memory, disk and process pressure, each under its own key. */
  function ChecksOf(node: Node, cs: seq<Clock>): seq<Check>
    requires |cs| == 3
  {
    [Check(node.name + "-" + "MemoryPressure", PressureOn(node.conditions, MemoryPressure), cs[0]),
     Check(node.name + "-" + "DiskPressure", PressureOn(node.conditions, DiskPressure), cs[1]),
     Check(node.name + "-" + "PIDPressure", PressureOn(node.conditions, PIDPressure), cs[2])]
  }

  lemma CheckOfType(node: Node, cs: seq<Clock>, i: nat)
    requires |cs| == 3 && i < 3
    ensures ChecksOf(node, cs)[i] == Check(KeyOf(node.name, TYPES[i]), PressureOn(node.conditions, TYPES[i]), cs[i])
  {
  }

  lemma RunThen(before: seq<Check>, checks: seq<Check>, k: nat)
    requires k < |checks|
    ensures Run(before + checks[..k + 1])
         == Checked(Run(before + checks[..k]), checks[k].key, checks[k].pressure, checks[k].clock)
  {
    var longer := before + checks[..k + 1];
    assert longer[..|longer| - 1] == before + checks[..k];
  }

  /** Checking a node is a run of its three checks in this order, up to the first alert that is wanted
      but not published; so what holds of all runs of checks holds of all runs of nodes. */
  lemma {:induction false} NodeCheckIsRun(before: seq<Check>, node: Node, cs: seq<Clock>, n: nat) returns (k: nat)
    requires |cs| == 3 && n <= 3
    ensures
      var o := CheckedAll(Run(before), node, cs, n);
      && k <= n && o.m == Run(before + ChecksOf(node, cs)[..k])
      && (if o.ok then k == n else k > 0 && !cs[k - 1].published && o.m == Run(before + ChecksOf(node, cs)[..k - 1]))
  {
    if n == 0 {
      k := 0;
      assert before + ChecksOf(node, cs)[..0] == before;
    } else {
      k := NodeCheckIsRun(before, node, cs, n - 1);
      if CheckedAll(Run(before), node, cs, n - 1).ok {
        k := n;
        CheckOfType(node, cs, n - 1);
        RunThen(before, ChecksOf(node, cs), n - 1);
      }
    }
  }
}
