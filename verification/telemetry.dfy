/** util/Telemetry.kt: named value bindings published on every telemetry tick, a status
    box whose text, background and text colour come from a `Status`, the registry of
    every telemetry object, and the single background job that ticks them all. Each
    binding's body is identified by a number and evaluated by a caller-supplied
    function; the dashboard and network tables are the published pairs themselves. */
module Telemetry {
  import opened Wrappers

  datatype Binding = Binding(name: string, body: nat)

  datatype Telemetry = Telemetry(name: string, bindings: seq<Binding>)

  function NewTelemetry(name: string): (t: Telemetry)
    ensures t.name == name && t.bindings == []
  {
    Telemetry(name, [])
  }

  /** `add(name, body)`: one binding at the end. */
  function Add(t: Telemetry, name: string, body: nat): (r: Telemetry)
    ensures r.name == t.name
    ensures |r.bindings| == |t.bindings| + 1
    ensures r.bindings[..|t.bindings|] == t.bindings
    ensures r.bindings[|t.bindings|] == Binding(name, body)
  {
    var bs := t.bindings + [Binding(name, body)];
    assert bs[..|t.bindings|] == t.bindings;
    t.(bindings := bs)
  }

  /** The bindings whose name differs from `name`, in their original order. */
  function Without(bs: seq<Binding>, name: string): (r: seq<Binding>)
    ensures |r| <= |bs|
    ensures forall b :: b in r <==> b in bs && b.name != name
  {
    if |bs| == 0 then []
    else if bs[0].name == name then Without(bs[1..], name)
    else [bs[0]] + Without(bs[1..], name)
  }

  /** `remove(name)` (`removeIf`): every binding of that name goes; every other binding
      stays, as many times as it was registered, in order. */
  function Remove(t: Telemetry, name: string): (r: Telemetry)
    ensures r.name == t.name
    ensures forall b :: b in r.bindings <==> b in t.bindings && b.name != name
    ensures forall b: Binding :: b.name != name ==> multiset(r.bindings)[b] == multiset(t.bindings)[b]
  {
    WithoutKeepsCounts(t.bindings, name);
    t.(bindings := Without(t.bindings, name))
  }

  /** Removal keeps every other binding as many times as it was registered. */
  lemma {:induction false} WithoutKeepsCounts(bs: seq<Binding>, name: string)
    ensures forall b: Binding :: b.name != name ==> multiset(Without(bs, name))[b] == multiset(bs)[b]
    decreases |bs|
  {
    if |bs| > 0 {
      WithoutKeepsCounts(bs[1..], name);
      assert bs == [bs[0]] + bs[1..];
      if bs[0].name != name {
        assert Without(bs, name) == [bs[0]] + Without(bs[1..], name);
      }
    }
  }

  /** `x` is obtained from `y` by deleting some elements (order kept). */
  predicate SubsequenceOf(x: seq<Binding>, y: seq<Binding>)
    decreases |y|
  {
    |x| == 0 || (|y| > 0 && ((x[0] == y[0] && SubsequenceOf(x[1..], y[1..])) || SubsequenceOf(x, y[1..])))
  }

  /** Removal keeps the surviving bindings in their registration order. */
  lemma {:induction false} WithoutKeepsOrder(bs: seq<Binding>, name: string)
    ensures SubsequenceOf(Without(bs, name), bs)
    decreases |bs|
  {
    if |bs| > 0 {
      WithoutKeepsOrder(bs[1..], name);
      var w := Without(bs, name);
      if bs[0].name != name {
        assert w[0] == bs[0] && w[1..] == Without(bs[1..], name);
      }
    }
  }

  /** Removing a name just added undoes the add, when no binding had that name. */
  lemma {:induction false} RemoveUndoesAdd(bs: seq<Binding>, name: string, body: nat)
    requires forall b :: b in bs ==> b.name != name
    ensures Without(bs + [Binding(name, body)], name) == bs
    decreases |bs|
  {
    if |bs| == 0 {
      assert [Binding(name, body)][1..] == [];
    } else {
      assert (bs + [Binding(name, body)])[1..] == bs[1..] + [Binding(name, body)];
      RemoveUndoesAdd(bs[1..], name, body);
      assert bs == [bs[0]] + bs[1..];
    }
  }

  /** `tick()`: every binding of a snapshot of the list is published once, in order, as
      its name and its body's current value. */
  function Tick<V>(t: Telemetry, evaluate: nat -> V): (published: seq<(string, V)>)
    ensures |published| == |t.bindings|
    ensures forall i :: 0 <= i < |t.bindings| ==>
      published[i] == (t.bindings[i].name, evaluate(t.bindings[i].body))
  {
    seq(|t.bindings|, i requires 0 <= i < |t.bindings| => (t.bindings[i].name, evaluate(t.bindings[i].body)))
  }

  /** Publishing after an add publishes everything published before, then the new value. */
  lemma TickAfterAdd<V>(t: Telemetry, name: string, body: nat, evaluate: nat -> V)
    ensures Tick(Add(t, name, body), evaluate) == Tick(t, evaluate) + [(name, evaluate(body))]
  {
  }

  // ---------------------------------------------------------------------------
  // Status
  // ---------------------------------------------------------------------------

  /** `Status.State`: a name, a background colour and a text colour. */
  datatype State = State(name: string, color: string, textColor: string)

  /** The text colour a `State` gets when none is given. */
  const DefaultTextColor: string := "000000"

  const Nominal: State := State("Nominal", "00ff00", DefaultTextColor)
  const Warning: State := State("Warning", "ffd700", DefaultTextColor)
  const Error: State := State("Error", "ff0000", DefaultTextColor)

  datatype Status = Status(state: State, text: Option<string>)

  /** What the status box shows. */
  datatype StatusBox = StatusBox(text: string, backgroundColor: string, textColor: string)

  /** `toUpperCase()` on ASCII letters; other characters are kept. */
  function UpperChar(c: char): (u: char)
    ensures 'a' <= c <= 'z' ==> u as int == c as int - 32
    ensures !('a' <= c <= 'z') ==> u == c
    ensures !('a' <= u <= 'z')
  {
    if 'a' <= c <= 'z' then (c as int - 32) as char else c
  }

  function ToUpper(s: string): (u: string)
    ensures |u| == |s|
    ensures forall i :: 0 <= i < |s| ==> u[i] == UpperChar(s[i])
  {
    seq(|s|, i requires 0 <= i < |s| => UpperChar(s[i]))
  }

  /** Upper-casing twice is upper-casing once. */
  lemma ToUpperIdempotent(s: string)
    ensures ToUpper(ToUpper(s)) == ToUpper(s)
  {
  }

  /** `setStatus(status)`: the status text, or "<name> <state name>" when there is none,
      upper-cased; the colours come from the state. */
  function SetStatus(t: Telemetry, status: Status): (box: StatusBox)
    ensures status.text.Some? ==> box.text == ToUpper(status.text.value)
    ensures status.text.None? ==> box.text == ToUpper(t.name + " " + status.state.name)
    ensures box.backgroundColor == status.state.color && box.textColor == status.state.textColor
  {
    var text := match status.text
      case Some(s) => s
      case None => t.name + " " + status.state.name;
    StatusBox(ToUpper(text), status.state.color, status.state.textColor)
  }

  /** A `Nominal` status without text on the "Lift" telemetry shows "LIFT NOMINAL" in
      black on green. */
  lemma NominalLiftStatus()
    ensures SetStatus(NewTelemetry("Lift"), Status(Nominal, None)) == StatusBox("LIFT NOMINAL", "00ff00", "000000")
  {
    var box := SetStatus(NewTelemetry("Lift"), Status(Nominal, None));
    assert "Lift" + " " + Nominal.name == "Lift Nominal";
    UpperLiftNominal();
  }

  lemma UpperLiftNominal()
    ensures ToUpper("Lift Nominal") == "LIFT NOMINAL"
  {
    var u := ToUpper("Lift Nominal");
    assert u[..4] == ToUpper("Lift") && u[4..] == ToUpper(" Nominal");
    assert ToUpper("Lift") == "LIFT";
    assert ToUpper(" Nominal") == " NOMINAL";
    assert u == u[..4] + u[4..];
  }

  // ---------------------------------------------------------------------------
  // The registry and the telemetry job
  // ---------------------------------------------------------------------------

  /** The file-level `instances` list and how many times the telemetry job was launched. */
  datatype Registry = Registry(instances: seq<string>, launches: nat)

  /** `launchTelemetry()`: launch the job only when there is none. */
  function LaunchTelemetry(r: Registry): (s: Registry)
    ensures s.instances == r.instances
    ensures s.launches == if r.launches == 0 then 1 else r.launches
  {
    if r.launches == 0 then r.(launches := 1) else r
  }

  /** Constructing a telemetry object: `instances += this`, then `launchTelemetry()`. */
  function Construct(r: Registry, name: string): (s: Registry)
    ensures s.instances == r.instances + [name]
    ensures s.launches == if r.launches == 0 then 1 else r.launches
  {
    LaunchTelemetry(r.(instances := r.instances + [name]))
  }

  function ConstructAll(r: Registry, names: seq<string>): Registry
    decreases |names|
  {
    if |names| == 0 then r else ConstructAll(Construct(r, names[0]), names[1..])
  }

  /** However many telemetry objects are built, each is registered in order and the job
      is launched once. */
  lemma {:induction false} ConstructAllLaunchesOnce(r: Registry, names: seq<string>)
    requires r.launches <= 1
    ensures ConstructAll(r, names).instances == r.instances + names
    ensures ConstructAll(r, names).launches == if |names| == 0 then r.launches else 1
    decreases |names|
  {
    if |names| > 0 {
      ConstructAllLaunchesOnce(Construct(r, names[0]), names[1..]);
      assert r.instances + [names[0]] + names[1..] == r.instances + names;
    }
  }

  /** Launching again changes nothing. */
  lemma LaunchIdempotent(r: Registry)
    ensures LaunchTelemetry(LaunchTelemetry(r)) == LaunchTelemetry(r)
  {
  }
}
