/** Commands from the host to the guest's windows, and what may be collapsed before it is sent. */
module WindowCommands {
  import opened Bytes
  import opened Wrappers

  datatype Path = Control | Input | Feedback

  /** One opaque value stands for every field no coalescing rule reads. */
  datatype Command =
    | Configure(window: nat, state: int)
    | ScaleChanged(window: nat, scale: int)
    | OutputsChanged(displays: int)
    | WindowOutputChanged(window: nat, output: Option<nat>)
    | InputPreferences(preferences: int)
    | PointerMoved(window: nat, x: real, y: real)
    | PointerScroll(window: nat, dx: real, dy: real, precise: bool, inverted: bool)
    | FrameReleased(frame: int)
    | HostSelectionData(token: nat, payload: Data)
    | NotificationAction(id: nat, revision: nat, key: Data)
    | NotificationClosed(id: nat, revision: nat, reason: int)
    | Other(path: Path, body: int)
  {
    function TransportLane(): Path {
      match this
      case PointerMoved(_, _, _) => Input
      case PointerScroll(_, _, _, _, _) => Input
      case FrameReleased(_) => Feedback
      case Other(path, _) => path
      case _ => Control
    }
  }

  // ---- Coalescing ----

  predicate SameDirection(a: real, b: real) { a == 0.0 || b == 0.0 || (a < 0.0) == (b < 0.0) }

  predicate SameWheel(a: Command, b: Command)
    requires a.PointerScroll? && b.PointerScroll?
  {
    a.window == b.window && a.precise == b.precise && a.inverted == b.inverted
  }

  predicate IsStop(c: Command) { c.PointerScroll? && c.dx == 0.0 && c.dy == 0.0 }

  function CoalescingScroll(previous: Command, next: Command): Option<Command>
    requires previous.PointerScroll? && next.PointerScroll?
  {
    if !SameWheel(previous, next) || IsStop(previous) || IsStop(next) then None
    else if !SameDirection(previous.dx, next.dx) || !SameDirection(previous.dy, next.dy) then None
    else Some(PointerScroll(previous.window, previous.dx + next.dx, previous.dy + next.dy, previous.precise, previous.inverted))
  }

  /** What replaces two neighbours in the queue, if they may be collapsed. */
  function Merged(previous: Command, next: Command): Option<Command> {
    match (previous, next)
    case (Configure(w, _), Configure(v, _)) => if w == v then Some(next) else None
    case (ScaleChanged(w, _), ScaleChanged(v, _)) => if w == v then Some(next) else None
    case (OutputsChanged(_), OutputsChanged(_)) => Some(next)
    case (WindowOutputChanged(w, _), WindowOutputChanged(v, _)) => if w == v then Some(next) else None
    case (InputPreferences(_), InputPreferences(_)) => Some(next)
    case (PointerMoved(w, _, _), PointerMoved(v, _, _)) => if w == v then Some(next) else None
    case (PointerScroll(_, _, _, _, _), PointerScroll(_, _, _, _, _)) => CoalescingScroll(previous, next)
    case _ => None
  }

  function Coalesce(pending: seq<Command>, command: Command): seq<Command> {
    if pending == [] then [command]
    else
      var merged := Merged(pending[|pending| - 1], command);
      if merged.Some? then pending[..|pending| - 1] + [merged.value] else pending + [command]
  }

  // ---- What a run of commands means to the guest ----

  /** The state later commands replace. */
  datatype Screen = Screen(
    configured: map<nat, int>,
    scales: map<nat, int>,
    displays: Option<int>,
    outputs: map<nat, Option<nat>>,
    preferences: Option<int>,
    pointers: map<nat, (real, real)>)

  /** The turning points of a displacement: totals of opposite sign, one after another. */
  function Turn(path: seq<real>, d: real): seq<real> {
    if d == 0.0 then path
    else if path == [] || (path[|path| - 1] < 0.0) != (d < 0.0) then path + [d]
    else path[|path| - 1 := path[|path| - 1] + d]
  }

  /** A gesture under way. */
  datatype Wheel = Wheel(window: nat, precise: bool, inverted: bool, x: seq<real>, y: seq<real>)

  /** What the guest can tell apart: a command that must be seen, with the state at that
      time, and a gesture that ended. */
  datatype Mark = Passed(command: Command, screen: Screen) | Scrolled(wheel: Wheel, screen: Screen)

  datatype Meaning = Meaning(trace: seq<Mark>, screen: Screen, wheel: Option<Wheel>)

  const NoMeaning := Meaning([], Screen(map[], map[], None, map[], None, map[]), None)

  function Replaced(s: Screen, c: Command): Option<Screen> {
    match c
    case Configure(window, state) => Some(s.(configured := s.configured[window := state]))
    case ScaleChanged(window, scale) => Some(s.(scales := s.scales[window := scale]))
    case OutputsChanged(displays) => Some(s.(displays := Some(displays)))
    case WindowOutputChanged(window, output) => Some(s.(outputs := s.outputs[window := output]))
    case InputPreferences(preferences) => Some(s.(preferences := Some(preferences)))
    case PointerMoved(window, x, y) => Some(s.(pointers := s.pointers[window := (x, y)]))
    case _ => None
  }

  function EndGesture(m: Meaning): Meaning {
    if m.wheel.None? then m else m.(trace := m.trace + [Scrolled(m.wheel.value, m.screen)], wheel := None)
  }

  predicate Continues(m: Meaning, c: Command)
    requires c.PointerScroll?
  {
    m.wheel.Some? && m.wheel.value.window == c.window && m.wheel.value.precise == c.precise && m.wheel.value.inverted == c.inverted
  }

  function Scroll(m: Meaning, c: Command): Meaning
    requires c.PointerScroll?
  {
    var n := if Continues(m, c) then m else EndGesture(m).(wheel := Some(Wheel(c.window, c.precise, c.inverted, [], [])));
    var wheel := n.wheel.value;
    n.(wheel := Some(wheel.(x := Turn(wheel.x, c.dx), y := Turn(wheel.y, c.dy))))
  }

  function Apply(m: Meaning, c: Command): Meaning {
    if c.PointerScroll? && !IsStop(c) then Scroll(m, c)
    else
      var n := EndGesture(m);
      var screen := Replaced(n.screen, c);
      if screen.Some? then n.(screen := screen.value) else n.(trace := n.trace + [Passed(c, n.screen)])
  }

  function MeaningOf(commands: seq<Command>): Meaning {
    if commands == [] then NoMeaning else Apply(MeaningOf(commands[..|commands| - 1]), commands[|commands| - 1])
  }

  // ---- Coalescing preserves it ----

  lemma TurnTwice(path: seq<real>, a: real, b: real)
    requires SameDirection(a, b)
    ensures Turn(Turn(path, a), b) == Turn(path, a + b)
  {
  }

  lemma ScrollTwice(m: Meaning, a: Command, b: Command)
    requires a.PointerScroll? && b.PointerScroll? && CoalescingScroll(a, b).Some?
    ensures Scroll(Scroll(m, a), b) == Scroll(m, CoalescingScroll(a, b).value)
    ensures !IsStop(CoalescingScroll(a, b).value)
  {
    var n := if Continues(m, a) then m else EndGesture(m).(wheel := Some(Wheel(a.window, a.precise, a.inverted, [], [])));
    TurnTwice(n.wheel.value.x, a.dx, b.dx);
    TurnTwice(n.wheel.value.y, a.dy, b.dy);
  }

  lemma ReplacedTwice(s: Screen, a: Command, b: Command)
    requires Merged(a, b) == Some(b)
    requires Replaced(s, a).Some?
    ensures Replaced(Replaced(s, a).value, b) == Replaced(s, b)
  {
    match (a, b)
    case (Configure(w, x), Configure(_, y)) => assert s.configured[w := x][w := y] == s.configured[w := y];
    case (ScaleChanged(w, x), ScaleChanged(_, y)) => assert s.scales[w := x][w := y] == s.scales[w := y];
    case (WindowOutputChanged(w, x), WindowOutputChanged(_, y)) => assert s.outputs[w := x][w := y] == s.outputs[w := y];
    case (PointerMoved(w, x, y), PointerMoved(_, u, v)) =>
      assert s.pointers[w := (x, y)][w := (u, v)] == s.pointers[w := (u, v)];
    case _ =>
  }

  /** Collapsing two neighbours changes nothing the guest can tell. */
  lemma MergedMeans(m: Meaning, a: Command, b: Command)
    requires Merged(a, b).Some?
    ensures Apply(Apply(m, a), b) == Apply(m, Merged(a, b).value)
  {
    if a.PointerScroll? {
      ScrollTwice(m, a, b);
    } else {
      ReplacedTwice(EndGesture(m).screen, a, b);
    }
  }

  lemma AppliedLast(commands: seq<Command>, c: Command)
    ensures MeaningOf(commands + [c]) == Apply(MeaningOf(commands), c)
  {
    assert (commands + [c])[..|commands|] == commands;
  }

  lemma MergedLast(s: seq<Command>, last: Command, c: Command)
    requires Merged(last, c).Some?
    ensures MeaningOf(s + [Merged(last, c).value]) == MeaningOf(s + [last] + [c])
  {
    AppliedLast(s, Merged(last, c).value);
    AppliedLast(s, last);
    AppliedLast(s + [last], c);
    MergedMeans(MeaningOf(s), last, c);
  }

  lemma CoalesceMeans(before: seq<Command>, pending: seq<Command>, c: Command)
    ensures MeaningOf(before + Coalesce(pending, c)) == MeaningOf(before + pending + [c])
  {
    if pending == [] || Merged(pending[|pending| - 1], c).None? {
      assert before + Coalesce(pending, c) == before + pending + [c];
    } else {
      var front, last := pending[..|pending| - 1], pending[|pending| - 1];
      assert before + Coalesce(pending, c) == before + front + [Merged(last, c).value];
      assert before + pending == before + front + [last];
      MergedLast(before + front, last, c);
    }
  }

  // ---- Scrolls merge exactly when they may ----

  lemma OneCommandMeans(c: Command)
    ensures var m := MeaningOf([c]);
            || (m.trace == [] && (m.wheel.Some? ==> |m.wheel.value.x| <= 1 && |m.wheel.value.y| <= 1))
            || (|m.trace| == 1 && m.wheel == None)
  {
    AppliedLast([], c);
    assert [] + [c] == [c];
  }

  /** Without a merge two scrolls leave two marks, a mark and a gesture, or a turning point. */
  lemma TwoScrollsMean(a: Command, b: Command)
    requires a.PointerScroll? && b.PointerScroll? && CoalescingScroll(a, b).None?
    ensures var m := MeaningOf([a, b]);
            || |m.trace| == 2
            || (|m.trace| == 1 && m.wheel.Some?)
            || (m.wheel.Some? && (|m.wheel.value.x| == 2 || |m.wheel.value.y| == 2))
  {
    AppliedLast([], a);
    AppliedLast([a], b);
    assert [] + [a] == [a] && [a] + [b] == [a, b];
  }

  /** Two scrolls are collapsed exactly when one command can stand for both. */
  lemma ScrollsMergeExactly(a: Command, b: Command)
    requires a.PointerScroll? && b.PointerScroll?
    ensures CoalescingScroll(a, b).Some? <==> exists c :: MeaningOf([c]) == MeaningOf([a, b])
  {
    if CoalescingScroll(a, b).Some? {
      var c := CoalescingScroll(a, b).value;
      CoalesceMeans([], [a], b);
      assert [] + Coalesce([a], b) == [c] && [] + [a] + [b] == [a, b];
      assert MeaningOf([c]) == MeaningOf([a, b]);
    } else {
      TwoScrollsMean(a, b);
      forall c ensures MeaningOf([c]) != MeaningOf([a, b]) { OneCommandMeans(c); }
    }
  }

  // ---- So does everything else ----

  lemma OneMeans(c: Command)
    requires !c.PointerScroll?
    ensures var screen := Replaced(NoMeaning.screen, c);
            MeaningOf([c]) == if screen.Some? then NoMeaning.(screen := screen.value) else NoMeaning.(trace := [Passed(c, NoMeaning.screen)])
  {
    AppliedLast([], c);
    assert [] + [c] == [c] && [] + [Passed(c, NoMeaning.screen)] == [Passed(c, NoMeaning.screen)];
  }

  lemma TwoMean(a: Command, b: Command)
    requires !a.PointerScroll? && !b.PointerScroll?
    ensures MeaningOf([a, b]) == Apply(MeaningOf([a]), b)
  {
    AppliedLast([a], b);
    assert [a] + [b] == [a, b];
  }

  lemma SameEntry<V>(m: map<nat, V>, w: nat, x: V, v: nat, y: V)
    requires m[w := x][v := y] == m[v := y] && w !in m
    ensures w == v
  {
    assert w in m[w := x][v := y];
  }

  /** A command takes the place of the one before exactly when the guest cannot tell whether that
      one was ever sent. */
  lemma StatesMergeExactly(a: Command, b: Command)
    requires !a.PointerScroll? && !b.PointerScroll?
    ensures Merged(a, b).Some? <==> MeaningOf([a, b]) == MeaningOf([b])
    ensures Merged(a, b).Some? ==> Merged(a, b).value == b
  {
    OneMeans(a);
    OneMeans(b);
    TwoMean(a, b);
    if Merged(a, b).Some? {
      ReplacedTwice(NoMeaning.screen, a, b);
    } else if MeaningOf([a, b]) == MeaningOf([b]) {
      match (a, b)
      case (Configure(w, x), Configure(v, y)) => SameEntry(NoMeaning.screen.configured, w, x, v, y);
      case (ScaleChanged(w, x), ScaleChanged(v, y)) => SameEntry(NoMeaning.screen.scales, w, x, v, y);
      case (WindowOutputChanged(w, x), WindowOutputChanged(v, y)) => SameEntry(NoMeaning.screen.outputs, w, x, v, y);
      case (PointerMoved(w, x, y), PointerMoved(v, x', y')) => SameEntry(NoMeaning.screen.pointers, w, (x, y), v, (x', y'));
      case _ => if Replaced(NoMeaning.screen, a).Some? { StateStays(a, b); }
    }
  }

  lemma StateStays(a: Command, b: Command)
    requires !a.PointerScroll? && !b.PointerScroll? && Merged(a, b).None? && Replaced(NoMeaning.screen, a).Some?
    requires !(a.Configure? && b.Configure?) && !(a.ScaleChanged? && b.ScaleChanged?)
    requires !(a.WindowOutputChanged? && b.WindowOutputChanged?) && !(a.PointerMoved? && b.PointerMoved?)
    ensures MeaningOf([a, b]) != MeaningOf([b])
  {
    OneMeans(a);
    OneMeans(b);
    TwoMean(a, b);
    var screen := Replaced(NoMeaning.screen, a).value;
    match a {
      case Configure(w, _) => assert w in screen.configured;
      case ScaleChanged(w, _) => assert w in screen.scales;
      case WindowOutputChanged(w, _) => assert w in screen.outputs;
      case PointerMoved(w, _, _) => assert w in screen.pointers;
      case _ =>
    }
    if Replaced(screen, b).None? {
      assert MeaningOf([a, b]).trace[0] == Passed(b, screen) && MeaningOf([b]).trace[0] == Passed(b, NoMeaning.screen);
    }
  }
}
