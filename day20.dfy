/**
 * Day 20: a network of modules exchanging high and low pulses.
 *
 * A module is a Broadcaster (relays what it receives), a FlipFlop (toggles on
 * a low pulse and then sends its new state, ignores high pulses) or a
 * Conjunction (remembers the last pulse from each input and sends low exactly
 * when every remembered pulse is high). Pressing the button sends one low pulse
 * to "broadcaster" and delivers the resulting pulses in first-in first-out
 * order, counting every delivered pulse by polarity.
 *
 * A pulse is a `bool`, as in the source: `true` is high, `false` is low.
 */
module Day20 {
  import opened Wrappers
  import opened Strings

  datatype ModuleType = Broadcaster | FlipFlop | Conjunction

  /**
   * One module. `flipFlopState` only matters for a FlipFlop and
   * `conjunctionState` only for a Conjunction, as in the source's struct.
   */
  datatype Module = Module(
    name: string,
    destinations: seq<string>,
    moduleType: ModuleType,
    flipFlopState: bool,
    conjunctionState: map<string, bool>)

  /** The only error `Module::from_str` returns: the number of " -> " sections found. */
  datatype ParseError = SectionCount(found: nat)

  const Arrow := " -> "
  const Comma := ", "

  // ---------------------------------------------------------------------
  // Parsing
  // ---------------------------------------------------------------------

  /**
   * What the parser does not survive: when a line has exactly two sections,
   * its first section must start with `b`, `%` or `&` (otherwise the
   * `unwrap` on an empty name or the `Invalid module` arm panics).
   */
  predicate Parsable(line: string)
  {
    var sections := Split(line, Arrow);
    |sections| == 2 ==> |sections[0]| > 0 && sections[0][0] in {'b', '%', '&'}
  }

  function TypeOfPrefix(c: char): ModuleType
  {
    if c == 'b' then Broadcaster else if c == '%' then FlipFlop else Conjunction
  }

  /** A module as the parser leaves it: no flip-flop state and no remembered inputs. */
  predicate IsFresh(m: Module)
  {
    !m.flipFlopState && m.conjunctionState == map[]
  }

  /** `Module::from_str`. */
  function ParseModule(line: string): (r: Result<Module, ParseError>)
    requires Parsable(line)
    ensures r.Err? <==> |Split(line, Arrow)| != 2
    ensures r.Err? ==> r.error == SectionCount(|Split(line, Arrow)|)
    ensures r.Ok? ==> IsFresh(r.value)
    ensures r.Ok? ==>
      var head := Split(line, Arrow)[0];
      && r.value.moduleType == TypeOfPrefix(head[0])
      && r.value.name == (if head[0] == 'b' then head else head[1..])
      && r.value.destinations == Split(Split(line, Arrow)[1], Comma)
  {
    var sections := Split(line, Arrow);
    if |sections| != 2 then Err(SectionCount(|sections|))
    else
      var moduleType := TypeOfPrefix(sections[0][0]);
      var name := if moduleType != Broadcaster then sections[0][1..] else sections[0];
      Ok(Module(name, Split(sections[1], Comma), moduleType, false, map[]))
  }

  /** The text line describing a module, in the format the parser reads. */
  function Format(m: Module): string
  {
    var head := match m.moduleType
      case Broadcaster => m.name
      case FlipFlop => "%" + m.name
      case Conjunction => "&" + m.name;
    head + Arrow + Join(m.destinations, Comma)
  }

  /** A name that the line format can carry unambiguously. */
  predicate PlainName(s: string)
  {
    forall k :: 0 <= k < |s| ==> s[k] != ' ' && s[k] != ',' && s[k] != '-'
  }

  /** The modules the line format can describe: what `Format` writes, `ParseModule` reads back. */
  predicate Describable(m: Module)
  {
    && IsFresh(m)
    && PlainName(m.name)
    && (m.moduleType == Broadcaster ==> |m.name| > 0 && m.name[0] == 'b')
    && |m.destinations| >= 1
    && (forall k :: 0 <= k < |m.destinations| ==> PlainName(m.destinations[k]))
  }

  lemma PlainJoin(parts: seq<string>)
    requires forall k :: 0 <= k < |parts| ==> PlainName(parts[k])
    ensures forall k :: 0 <= k < |Join(parts, Comma)| ==> Join(parts, Comma)[k] != '-'
  {
    if |parts| > 1 {
      PlainJoin(parts[1..]);
    }
  }

  /** Parsing undoes formatting, for every module the format can describe. */
  lemma ParseFormat(m: Module)
    requires Describable(m)
    ensures Parsable(Format(m)) && ParseModule(Format(m)) == Ok(m)
  {
    var head := match m.moduleType
      case Broadcaster => m.name
      case FlipFlop => "%" + m.name
      case Conjunction => "&" + m.name;
    var list := Join(m.destinations, Comma);
    PlainJoin(m.destinations);
    NoCharNoOccurrence(list, Arrow, 1);
    assert ' ' !in head by {
      if m.moduleType != Broadcaster {
        assert head == [head[0]] + m.name;
      }
    }
    SplitJoin([head, list], Arrow);
    assert Join([head, list], Arrow) == Format(m);
    SplitJoin(m.destinations, Comma);
    var last := m.destinations[|m.destinations| - 1];
    NoCharNoOccurrence(last, Comma, 0);
    if m.moduleType != Broadcaster {
      assert head[1..] == m.name;
    }
  }

  // ---------------------------------------------------------------------
  // One module's reaction to one pulse
  // ---------------------------------------------------------------------

  /** Every remembered input was high. */
  predicate AllHigh(memory: map<string, bool>)
  {
    forall k :: k in memory ==> memory[k]
  }

  /**
   * `Module::process`: the module after receiving `pulse` from `from`, and
   * the pulse it sends on to all its destinations, if any.
   */
  function Process(m: Module, pulse: bool, from: string): (r: (Module, Option<bool>))
    ensures r.0.name == m.name && r.0.destinations == m.destinations && r.0.moduleType == m.moduleType
    ensures m.moduleType == Broadcaster ==> r == (m, Some(pulse))
    ensures m.moduleType == FlipFlop && pulse ==> r == (m, None)
    ensures m.moduleType == FlipFlop && !pulse ==>
      && r.0 == m.(flipFlopState := !m.flipFlopState)
      && r.1 == Some(!m.flipFlopState)
    ensures m.moduleType == Conjunction ==>
      && r.0.flipFlopState == m.flipFlopState
      && r.0.conjunctionState.Keys == m.conjunctionState.Keys + {from}
      && r.0.conjunctionState[from] == pulse
      && (forall k :: k in m.conjunctionState && k != from ==> r.0.conjunctionState[k] == m.conjunctionState[k])
      && (r.1 == Some(false) <==> AllHigh(r.0.conjunctionState))
      && r.1.Some?
  {
    match m.moduleType
    case Broadcaster => (m, Some(pulse))
    case FlipFlop =>
      if !pulse then
        var flipped := m.(flipFlopState := !m.flipFlopState);
        (flipped, Some(flipped.flipFlopState))
      else
        (m, None)
    case Conjunction =>
      var remembered := m.(conjunctionState := m.conjunctionState[from := pulse]);
      (remembered, Some(!AllHigh(remembered.conjunctionState)))
  }

  /** Two low pulses bring a FlipFlop back where it was; it sends high, then low, or low, then high. */
  lemma FlipFlopTwoLows(m: Module, a: string, b: string)
    requires m.moduleType == FlipFlop
    ensures var (m1, out1) := Process(m, false, a);
            var (m2, out2) := Process(m1, false, b);
            m2 == m && out1 == Some(!m.flipFlopState) && out2 == Some(m.flipFlopState)
  {
  }

  /** Pulses from two different inputs leave the same Conjunction, and the same output, in either order. */
  lemma ConjunctionCommutes(m: Module, f1: string, p1: bool, f2: string, p2: bool)
    requires m.moduleType == Conjunction && f1 != f2
    ensures Process(Process(m, p1, f1).0, p2, f2) == Process(Process(m, p2, f2).0, p1, f1)
  {
    var mem := m.conjunctionState;
    assert mem[f1 := p1][f2 := p2] == mem[f2 := p2][f1 := p1];
    var a := Process(m, p1, f1).0;
    var b := Process(m, p2, f2).0;
    assert a.(conjunctionState := a.conjunctionState[f2 := p2]) == b.(conjunctionState := b.conjunctionState[f1 := p1]);
  }

  /** Only the latest pulse from an input matters: a later pulse from it overrides an earlier one. */
  lemma ConjunctionLatestWins(m: Module, f: string, p1: bool, p2: bool)
    requires m.moduleType == Conjunction
    ensures Process(Process(m, p1, f).0, p2, f) == Process(m, p2, f)
  {
    assert m.conjunctionState[f := p1][f := p2] == m.conjunctionState[f := p2];
  }

  // ---------------------------------------------------------------------
  // The module set
  // ---------------------------------------------------------------------

  /** Every module is stored under its own name. */
  predicate KeyedByName(modules: map<string, Module>)
  {
    forall k :: k in modules ==> modules[k].name == k
  }

  /** A line that `Module::from_str` turns into a module. */
  predicate Loads(line: string)
  {
    Parsable(line) && |Split(line, Arrow)| == 2
  }

  /** The module such a line describes. */
  function Parsed(line: string): Module
    requires Loads(line)
  {
    ParseModule(line).value
  }

  /** The modules of `lines`, in order (the `unwrap` of `ModuleSet::from_str` needs each to parse). */
  function ParseAll(lines: seq<string>): seq<Module>
    requires forall line :: line in lines ==> Loads(line)
  {
    seq(|lines|, i requires 0 <= i < |lines| => Parsed(lines[i]))
  }

  /** The map built by inserting each module under its name, later ones replacing earlier ones. */
  function Collect(ms: seq<Module>): (r: map<string, Module>)
    ensures KeyedByName(r)
  {
    if ms == [] then map[]
    else var last := ms[|ms| - 1]; Collect(ms[..|ms| - 1])[last.name := last]
  }

  /** A name is present iff some module has it, and it maps to the last module with that name. */
  lemma {:induction false} CollectLastWins(ms: seq<Module>, i: nat)
    requires i < |ms|
    requires forall j :: i < j < |ms| ==> ms[j].name != ms[i].name
    ensures ms[i].name in Collect(ms) && Collect(ms)[ms[i].name] == ms[i]
    decreases |ms|
  {
    if i < |ms| - 1 {
      CollectLastWins(ms[..|ms| - 1], i);
    }
  }

  lemma {:induction false} CollectKeys(ms: seq<Module>)
    ensures Collect(ms).Keys == set i | 0 <= i < |ms| :: ms[i].name
    decreases |ms|
  {
    if ms != [] {
      var front := ms[..|ms| - 1];
      CollectKeys(front);
      assert (set i | 0 <= i < |ms| :: ms[i].name)
          == (set i | 0 <= i < |front| :: front[i].name) + {ms[|ms| - 1].name};
    }
  }

  /** The modules listing `target` among their destinations. */
  function Inputs(modules: map<string, Module>, target: string): (r: set<string>)
    ensures forall k :: k in r <==> k in modules && target in modules[k].destinations
  {
    set k | k in modules && target in modules[k].destinations
  }

  /** A Conjunction with a low (`false`) memory entry added for each of its inputs. */
  function SeedModule(modules: map<string, Module>, k: string): Module
    requires k in modules
  {
    var m := modules[k];
    if m.moduleType == Conjunction then
      m.(conjunctionState := m.conjunctionState + map s | s in Inputs(modules, k) :: false)
    else m
  }

  /** What `reset` does to the module map. */
  function Seeded(modules: map<string, Module>): (r: map<string, Module>)
    ensures r.Keys == modules.Keys
  {
    map k | k in modules :: SeedModule(modules, k)
  }

  /**
   * Seeding gives every Conjunction a low memory entry for each of its inputs,
   * keeps any other memory entry, and changes nothing else; on freshly parsed
   * modules a Conjunction remembers exactly its inputs, all low.
   */
  lemma SeededSpec(modules: map<string, Module>, k: string)
    requires k in modules
    ensures var (m, s) := (modules[k], Seeded(modules)[k]);
      && s.name == m.name && s.destinations == m.destinations && s.moduleType == m.moduleType
      && s.flipFlopState == m.flipFlopState
      && (m.moduleType != Conjunction ==> s == m)
      && (m.moduleType == Conjunction ==>
            && s.conjunctionState.Keys == m.conjunctionState.Keys + Inputs(modules, k)
            && (forall i :: i in Inputs(modules, k) ==> !s.conjunctionState[i])
            && (forall i :: i in m.conjunctionState && i !in Inputs(modules, k) ==>
                  s.conjunctionState[i] == m.conjunctionState[i]))
      && (m.moduleType == Conjunction && IsFresh(m) ==>
            s.conjunctionState == map i | i in Inputs(modules, k) :: false)
  {
  }

  /** Seeding twice is seeding once. */
  lemma SeededIdempotent(modules: map<string, Module>)
    ensures Seeded(Seeded(modules)) == Seeded(modules)
  {
    var once := Seeded(modules);
    forall k | k in modules ensures Inputs(once, k) == Inputs(modules, k) {
    }
    forall k | k in modules ensures Seeded(once)[k] == once[k] {
      var m := modules[k];
      if m.moduleType == Conjunction {
        var low := map s | s in Inputs(modules, k) :: false;
        assert m.conjunctionState + low + low == m.conjunctionState + low;
      }
    }
  }

  // ---------------------------------------------------------------------
  // Propagation of one button press, as a state machine
  // ---------------------------------------------------------------------

  /** A pulse in flight: from `from`, of polarity `pulse`, to `to`. */
  datatype Event = Event(from: string, pulse: bool, to: string)

  /** The one event a button press starts with. */
  const ButtonEvent := Event("button", false, "broadcaster")

  /** The state the press loop works on: modules, queue and the two counters. */
  datatype Propagation = Propagation(modules: map<string, Module>, queue: seq<Event>, low: nat, high: nat)

  /** The events a module `name` sends: one per destination, in list order. */
  function Emit(name: string, pulse: bool, dests: seq<string>): (r: seq<Event>)
    ensures |r| == |dests|
    ensures forall i :: 0 <= i < |dests| ==> r[i] == Event(name, pulse, dests[i])
  {
    if dests == [] then [] else Emit(name, pulse, dests[..|dests| - 1]) + [Event(name, pulse, dests[|dests| - 1])]
  }

  /** The events a module sends after processing, given what `process` returned. */
  function Emitted(m: Module, out: Option<bool>): seq<Event>
  {
    if out.Some? then Emit(m.name, out.value, m.destinations) else []
  }

  /** One iteration of the `while let` loop of `press_button`: dequeue, count, deliver. */
  function Step(p: Propagation): Propagation
    requires p.queue != []
  {
    var e := p.queue[0];
    var low := if e.pulse then p.low else p.low + 1;
    var high := if e.pulse then p.high + 1 else p.high;
    if e.to in p.modules then
      var (m, out) := Process(p.modules[e.to], e.pulse, e.from);
      Propagation(p.modules[e.to := m], p.queue[1..] + Emitted(m, out), low, high)
    else
      Propagation(p.modules, p.queue[1..], low, high)
  }

  /** At most `n` iterations, stopping early when the queue is empty. */
  function Run(p: Propagation, n: nat): Propagation
    decreases n
  {
    if n == 0 || p.queue == [] then p else Run(Step(p), n - 1)
  }

  /** Every dequeued event is counted exactly once, under its own polarity. */
  lemma StepCounts(p: Propagation)
    requires p.queue != []
    ensures var q := Step(p);
      && q.low + q.high == p.low + p.high + 1
      && (p.queue[0].pulse ==> q.high == p.high + 1 && q.low == p.low)
      && (!p.queue[0].pulse ==> q.low == p.low + 1 && q.high == p.high)
  {
  }

  /** An event to a name that is not a module only advances a counter. */
  lemma StepToSink(p: Propagation)
    requires p.queue != [] && p.queue[0].to !in p.modules
    ensures Step(p).modules == p.modules && Step(p).queue == p.queue[1..]
  {
  }

  /**
   * An event to a module changes that module only, as `process` says, and
   * appends its output once per destination, in list order, sent from the
   * module's name.
   */
  lemma StepToModule(p: Propagation)
    requires p.queue != [] && p.queue[0].to in p.modules
    ensures var e := p.queue[0];
      var (m, out) := Process(p.modules[e.to], e.pulse, e.from);
      var q := Step(p);
      && q.modules.Keys == p.modules.Keys
      && q.modules[e.to] == m
      && (forall k :: k in p.modules && k != e.to ==> q.modules[k] == p.modules[k])
      && q.queue[..|p.queue| - 1] == p.queue[1..]
      && |q.queue| == |p.queue| - 1 + (if out.Some? then |m.destinations| else 0)
      && (forall i :: 0 <= i < |q.queue| - (|p.queue| - 1) ==>
            q.queue[|p.queue| - 1 + i] == Event(m.name, out.value, m.destinations[i]))
  {
  }

  /** A high pulse into a FlipFlop queues nothing and changes no module. */
  lemma HighIntoFlipFlopIsSilent(p: Propagation)
    requires p.queue != [] && p.queue[0].pulse
    requires p.queue[0].to in p.modules && p.modules[p.queue[0].to].moduleType == FlipFlop
    ensures Step(p).modules == p.modules && Step(p).queue == p.queue[1..]
  {
    assert p.modules[p.queue[0].to := p.modules[p.queue[0].to]] == p.modules;
  }

  /** Running `a` steps and then `b` more is running `a + b` steps. */
  lemma {:induction false} RunAdd(p: Propagation, a: nat, b: nat)
    ensures Run(Run(p, a), b) == Run(p, a + b)
    decreases a
  {
    if a > 0 && p.queue != [] {
      RunAdd(Step(p), a - 1, b);
    }
  }

  /** Number of events dequeued by `Run(p, n)`. */
  function Dequeued(p: Propagation, n: nat): (k: nat)
    ensures k <= n
    decreases n
  {
    if n == 0 || p.queue == [] then 0 else 1 + Dequeued(Step(p), n - 1)
  }

  /** After `n` iterations the counters have grown by exactly the number of events dequeued. */
  lemma {:induction false} RunCounts(p: Propagation, n: nat)
    ensures Run(p, n).low + Run(p, n).high == p.low + p.high + Dequeued(p, n)
    ensures Run(p, n).low >= p.low && Run(p, n).high >= p.high
    ensures Dequeued(p, n) < n ==> Run(p, n).queue == []
    decreases n
  {
    if n > 0 && p.queue != [] {
      StepCounts(p);
      RunCounts(Step(p), n - 1);
    }
  }

  /** The module map keeps its keys, names, kinds and destination lists. */
  predicate SameShape(a: map<string, Module>, b: map<string, Module>)
  {
    && a.Keys == b.Keys
    && forall k :: k in a ==>
         && a[k].name == b[k].name
         && a[k].destinations == b[k].destinations
         && a[k].moduleType == b[k].moduleType
  }

  lemma {:induction false} RunShape(p: Propagation, n: nat)
    ensures SameShape(p.modules, Run(p, n).modules)
    decreases n
  {
    if n > 0 && p.queue != [] {
      RunShape(Step(p), n - 1);
    }
  }

  /** Where the events in the queue come from: the button, or a module listing the receiver. */
  predicate Wired(p: Propagation)
  {
    forall i :: 0 <= i < |p.queue| ==>
      var e := p.queue[i];
      e == ButtonEvent || (e.from in p.modules && e.to in p.modules[e.from].destinations)
  }

  /** Every Conjunction already remembers each of its inputs (what `reset` establishes). */
  predicate InputsRemembered(modules: map<string, Module>)
  {
    forall k :: k in modules && modules[k].moduleType == Conjunction ==>
      Inputs(modules, k) <= modules[k].conjunctionState.Keys
  }

  /** The memory keys of every Conjunction. */
  function MemoryKeys(modules: map<string, Module>): map<string, set<string>>
  {
    map k | k in modules :: modules[k].conjunctionState.Keys
  }

  /** The button's own event reaches a Conjunction only if one is named "broadcaster". */
  predicate ButtonTargetNotConjunction(modules: map<string, Module>)
  {
    ButtonEvent.to in modules ==> modules[ButtonEvent.to].moduleType != Conjunction
  }

  /** Every event a step queues is sent by a module to one of its destinations. */
  lemma StepKeepsWired(p: Propagation)
    requires p.queue != [] && Wired(p) && KeyedByName(p.modules)
    ensures Wired(Step(p))
  {
    var e := p.queue[0];
    var q := Step(p);
    if e.to in p.modules {
      var (m, out) := Process(p.modules[e.to], e.pulse, e.from);
      assert q.modules == p.modules[e.to := m] && m.name == e.to;
      forall i | 0 <= i < |q.queue|
        ensures q.queue[i] == ButtonEvent
             || (q.queue[i].from in q.modules && q.queue[i].to in q.modules[q.queue[i].from].destinations)
      {
        if i >= |p.queue| - 1 {
          var j := i - (|p.queue| - 1);
          assert q.queue[i] == Event(m.name, out.value, m.destinations[j]);
        } else {
          assert q.queue[i] == p.queue[i + 1];
        }
      }
    }
  }

  /** Maps of the same shape give every module the same inputs. */
  lemma SameShapeInputs(a: map<string, Module>, b: map<string, Module>)
    requires SameShape(a, b)
    ensures forall k :: Inputs(a, k) == Inputs(b, k)
  {
    forall k ensures Inputs(a, k) == Inputs(b, k) {
    }
  }

  /** Replacing a module by one of the same shape and memory keys keeps every invariant of the map. */
  lemma ReplaceKeepsMemoryKeys(modules: map<string, Module>, k: string, m: Module)
    requires k in modules && m.name == modules[k].name && m.destinations == modules[k].destinations
    requires m.moduleType == modules[k].moduleType
    requires m.conjunctionState.Keys == modules[k].conjunctionState.Keys
    ensures var r := modules[k := m];
      && SameShape(modules, r)
      && MemoryKeys(r) == MemoryKeys(modules)
      && (KeyedByName(modules) ==> KeyedByName(r))
      && (InputsRemembered(modules) ==> InputsRemembered(r))
      && (ButtonTargetNotConjunction(modules) ==> ButtonTargetNotConjunction(r))
  {
    var r := modules[k := m];
    assert SameShape(modules, r);
    SameShapeInputs(modules, r);
    assert MemoryKeys(r) == MemoryKeys(modules);
  }

  /**
   * Once seeded, a Conjunction's memory keys never change during a press:
   * every pulse it receives comes from an input it already remembers.
   */
  lemma StepKeepsMemoryKeys(p: Propagation)
    requires p.queue != [] && Wired(p) && KeyedByName(p.modules)
    requires InputsRemembered(p.modules) && ButtonTargetNotConjunction(p.modules)
    ensures var q := Step(p);
      && Wired(q) && KeyedByName(q.modules)
      && InputsRemembered(q.modules) && ButtonTargetNotConjunction(q.modules)
      && MemoryKeys(q.modules) == MemoryKeys(p.modules)
  {
    StepKeepsWired(p);
    var e := p.queue[0];
    if e.to in p.modules {
      var old_m := p.modules[e.to];
      var (m, out) := Process(old_m, e.pulse, e.from);
      assert Step(p).modules == p.modules[e.to := m];
      if m.moduleType == Conjunction {
        assert e != ButtonEvent;
        assert e.from in Inputs(p.modules, e.to);
        assert e.from in old_m.conjunctionState.Keys;
      }
      assert m.conjunctionState.Keys == old_m.conjunctionState.Keys;
      ReplaceKeepsMemoryKeys(p.modules, e.to, m);
    }
  }

  lemma {:induction false} RunKeepsMemoryKeys(p: Propagation, n: nat)
    requires Wired(p) && KeyedByName(p.modules)
    requires InputsRemembered(p.modules) && ButtonTargetNotConjunction(p.modules)
    ensures MemoryKeys(Run(p, n).modules) == MemoryKeys(p.modules)
    ensures KeyedByName(Run(p, n).modules) && InputsRemembered(Run(p, n).modules)
    decreases n
  {
    if n > 0 && p.queue != [] {
      StepKeepsMemoryKeys(p);
      RunKeepsMemoryKeys(Step(p), n - 1);
    }
  }

  /** Seeding gives every Conjunction a memory for each of its inputs. */
  lemma SeededRemembersInputs(modules: map<string, Module>)
    ensures InputsRemembered(Seeded(modules))
  {
    forall k | k in modules ensures Inputs(Seeded(modules), k) == Inputs(modules, k) {
    }
  }

  /** A freshly seeded network run from the button press never changes a Conjunction's memory keys. */
  lemma PressKeepsSeededKeys(modules: map<string, Module>, n: nat)
    requires KeyedByName(modules) && ButtonTargetNotConjunction(modules)
    ensures var s := Seeded(modules);
      MemoryKeys(Run(Propagation(s, [ButtonEvent], 0, 0), n).modules) == MemoryKeys(s)
  {
    var s := Seeded(modules);
    SeededRemembersInputs(modules);
    RunKeepsMemoryKeys(Propagation(s, [ButtonEvent], 0, 0), n);
  }

  // ---------------------------------------------------------------------
  // The mutable module set
  // ---------------------------------------------------------------------

  /** `ModuleSet`: modules keyed by name and the two pulse counters. */
  class ModuleSet {
    var modules: map<string, Module>
    var highCount: nat
    var lowCount: nat

    ghost predicate Valid()
      reads this
    {
      KeyedByName(modules)
    }

    /** `ModuleSet::from_str`, over the lines of the text. */
    constructor FromLines(lines: seq<string>)
      requires forall line :: line in lines ==> Loads(line)
      ensures Valid()
      ensures modules == Collect(ParseAll(lines))
      ensures highCount == 0 && lowCount == 0
    {
      var parsed := ParseAll(lines);
      var ms: map<string, Module> := map[];
      for i := 0 to |parsed|
        invariant ms == Collect(parsed[..i])
      {
        var m := parsed[i];
        assert parsed[..i + 1][..i] == parsed[..i];
        ms := ms[m.name := m];
      }
      assert parsed[..|parsed|] == parsed;
      modules := ms;
      highCount := 0;
      lowCount := 0;
    }

    /** The press-loop state right before the loop, for a press starting now. */
    ghost function Start(): Propagation
      reads this
    {
      Propagation(modules, [ButtonEvent], lowCount, highCount)
    }

    /**
     * `press_button`, allowed at most `fuel` dequeues. `drained` says whether
     * the queue emptied; then the press has run to completion.
     */
    method PressButton(fuel: nat) returns (dequeued: nat, drained: bool)
      requires Valid()
      modifies this
      ensures Valid()
      ensures var r := Run(old(Start()), dequeued);
        && modules == r.modules && lowCount == r.low && highCount == r.high
        && drained == (r.queue == [])
      ensures dequeued <= fuel && (!drained ==> dequeued == fuel)
      ensures dequeued == Dequeued(old(Start()), fuel)
      ensures lowCount + highCount == old(lowCount) + old(highCount) + dequeued
      ensures fuel > 0 ==> dequeued >= 1 && lowCount >= old(lowCount) + 1
    {
      ghost var start := Start();
      var q := [ButtonEvent];
      dequeued := 0;
      while q != [] && dequeued < fuel
        invariant dequeued <= fuel
        decreases fuel - dequeued
        invariant Run(start, dequeued) == Propagation(modules, q, lowCount, highCount)
        invariant Dequeued(start, dequeued) == dequeued
        invariant KeyedByName(modules)
        invariant dequeued > 0 ==> lowCount >= start.low + 1
        invariant lowCount + highCount == start.low + start.high + dequeued
        invariant lowCount >= start.low
      {
        q := Deliver(q);
        RunOneMore(start, dequeued);
        dequeued := dequeued + 1;
      }
      drained := q == [];
      DequeuedStops(start, dequeued, fuel);
    }

    /** One iteration of the `while let` loop: dequeue the first event, count it, deliver it. */
    method Deliver(q: seq<Event>) returns (rest: seq<Event>)
      requires Valid() && q != []
      modifies this
      ensures Valid()
      ensures Propagation(modules, rest, lowCount, highCount)
           == Step(Propagation(old(modules), q, old(lowCount), old(highCount)))
    {
      var e := q[0];
      rest := q[1..];
      if e.pulse {
        highCount := highCount + 1;
      } else {
        lowCount := lowCount + 1;
      }
      if e.to in modules {
        var (m, out) := Process(modules[e.to], e.pulse, e.from);
        modules := modules[e.to := m];
        if out.Some? {
          rest := PushAll(rest, m.name, out.value, m.destinations);
        }
      }
    }

    /** The `for dest in &module.destinations` loop: one `push_back` per destination. */
    static method PushAll(q: seq<Event>, name: string, pulse: bool, dests: seq<string>) returns (r: seq<Event>)
      ensures r == q + Emit(name, pulse, dests)
    {
      r := q;
      for j := 0 to |dests|
        invariant r == q + Emit(name, pulse, dests[..j])
      {
        assert dests[..j + 1][..j] == dests[..j];
        r := r + [Event(name, pulse, dests[j])];
      }
      assert dests[..|dests|] == dests;
    }

    /**
     * The first loop of `reset`: for every Conjunction, the names of the
     * modules whose destinations contain it.
     */
    method ConjunctionInputs() returns (conjunctions: map<string, seq<string>>)
      ensures conjunctions.Keys == set n | n in modules && modules[n].moduleType == Conjunction
      ensures forall n :: n in conjunctions ==>
        forall x :: x in conjunctions[n] <==> x in Inputs(modules, n)
    {
      conjunctions := map[];
      var todo := modules.Keys;
      while todo != {}
        invariant todo <= modules.Keys
        invariant conjunctions.Keys ==
          set n | n in modules.Keys - todo && modules[n].moduleType == Conjunction
        invariant forall n :: n in conjunctions ==>
          forall x :: x in conjunctions[n] <==> x in Inputs(modules, n)
        decreases todo
      {
        var name :| name in todo;
        if modules[name].moduleType == Conjunction {
          var vec: seq<string> := [];
          var subs := modules.Keys;
          while subs != {}
            invariant subs <= modules.Keys
            invariant forall x :: x in vec <==> x in modules.Keys - subs && name in modules[x].destinations
            decreases subs
          {
            var subName :| subName in subs;
            if name in modules[subName].destinations {
              vec := vec + [subName];
            }
            subs := subs - {subName};
          }
          conjunctions := conjunctions[name := vec];
        }
        todo := todo - {name};
      }
    }

    /** The inner loop of `reset`'s second pass: a low entry in `name`'s memory for each of `subNames`. */
    method RememberLow(name: string, subNames: seq<string>)
      requires name in modules
      modifies this`modules
      ensures modules == old(modules)[name := old(modules)[name].(conjunctionState :=
        old(modules)[name].conjunctionState + LowEntries(subNames))]
    {
      ghost var before := modules;
      ghost var m0 := modules[name];
      assert LowEntries(subNames[..0]) == map[];
      assert m0.conjunctionState + map[] == m0.conjunctionState;
      assert before[name := m0] == before;
      for j := 0 to |subNames|
        invariant modules == before[name := m0.(conjunctionState := m0.conjunctionState + LowEntries(subNames[..j]))]
      {
        var m := modules[name];
        LowEntriesSnoc(m0.conjunctionState, subNames, j);
        modules := modules[name := m.(conjunctionState := m.conjunctionState[subNames[j] := false])];
      }
      assert subNames[..|subNames|] == subNames;
    }

    /** `reset`: seed every Conjunction's memory from the destination lists and zero both counters. */
    method Reset()
      requires Valid()
      modifies this
      ensures Valid()
      ensures modules == Seeded(old(modules))
      ensures highCount == 0 && lowCount == 0
    {
      ghost var original := modules;
      var conjunctions := ConjunctionInputs();
      // Second pass: a low memory entry for each input.
      var pending := conjunctions.Keys;
      while pending != {}
        invariant pending <= conjunctions.Keys
        invariant modules.Keys == original.Keys
        invariant forall k :: k in modules && k !in pending ==> modules[k] == SeedModule(original, k)
        invariant forall k :: k in pending ==> modules[k] == original[k]
        decreases pending
      {
        var name :| name in pending;
        var subNames := conjunctions[name];
        RememberLow(name, subNames);
        SeedFromList(original, name, subNames);
        pending := pending - {name};
      }
      SeededByParts(original, modules);
      SeededKeyedByName(original);
      highCount := 0;
      lowCount := 0;
    }
  }

  lemma SeedFromList(original: map<string, Module>, name: string, subNames: seq<string>)
    requires name in original && original[name].moduleType == Conjunction
    requires forall x :: x in subNames <==> x in Inputs(original, name)
    ensures original[name].(conjunctionState := original[name].conjunctionState + LowEntries(subNames))
         == SeedModule(original, name)
  {
    assert LowEntries(subNames) == map x | x in Inputs(original, name) :: false;
  }

  lemma SeededByParts(original: map<string, Module>, modules: map<string, Module>)
    requires modules.Keys == original.Keys
    requires forall k :: k in modules ==> modules[k] == SeedModule(original, k)
    ensures modules == Seeded(original)
  {
  }

  lemma SeededKeyedByName(modules: map<string, Module>)
    requires KeyedByName(modules)
    ensures KeyedByName(Seeded(modules))
  {
  }

  /** A low memory entry for each name in `xs`. */
  function LowEntries(xs: seq<string>): map<string, bool>
  {
    map x | x in xs :: false
  }

  lemma LowEntriesSnoc(memory: map<string, bool>, xs: seq<string>, j: nat)
    requires j < |xs|
    ensures memory + LowEntries(xs[..j + 1]) == (memory + LowEntries(xs[..j]))[xs[j] := false]
  {
    assert xs[..j + 1] == xs[..j] + [xs[j]];
  }

  /** One more iteration of the press loop is one more `Step`. */
  lemma RunOneMore(p: Propagation, n: nat)
    requires Run(p, n).queue != [] && Dequeued(p, n) == n
    ensures Run(p, n + 1) == Step(Run(p, n)) && Dequeued(p, n + 1) == n + 1
  {
    RunAdd(p, n, 1);
    DequeuedAdd(p, n);
  }

  lemma {:induction false} DequeuedAdd(p: Propagation, n: nat)
    requires Run(p, n).queue != [] && Dequeued(p, n) == n
    ensures Dequeued(p, n + 1) == n + 1
    decreases n
  {
    if n > 0 {
      assert p.queue != [];
      DequeuedAdd(Step(p), n - 1);
    }
  }

  lemma {:induction false} DequeuedStops(p: Propagation, n: nat, fuel: nat)
    requires n <= fuel && Dequeued(p, n) == n
    requires n < fuel ==> Run(p, n).queue == []
    ensures Dequeued(p, fuel) == n
    decreases n
  {
    if n > 0 {
      assert p.queue != [];
      DequeuedStops(Step(p), n - 1, fuel - 1);
    } else if fuel > 0 {
      assert p.queue == [];
    }
  }
}
