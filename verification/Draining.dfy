/** Incremental decoders: bytes are appended as they arrive and packets are pulled out until
    there are no more. A decoder whose answers more bytes never change gives the same
    packets however the bytes are cut. */
module Draining {
  import opened Bytes
  import opened Wrappers

  datatype Outcome<+P, +E> = Idle | Failed(error: E) | Emitted(packet: P)

  datatype Machine<!S(!new), !P(!new), !E(!new)> = Machine(
    next: S -> (S, Outcome<P, E>),
    append: (S, Data) -> S,
    size: S -> nat)

  datatype Drained<+S, +P, +E> = Drained(state: S, packets: seq<P>, error: Option<E>) {
    function After(packet: P): Drained<S, P, E> { this.(packets := [packet] + packets) }
  }

  /** A packet uses something up. */
  ghost predicate Shrinks<S(!new), P(!new), E(!new)>(m: Machine<S, P, E>) {
    forall s: S :: m.next(s).1.Emitted? ==> m.size(m.next(s).0) < m.size(s)
  }

  /** More bytes change neither a packet nor an error. */
  ghost predicate StableAt<S(!new), P(!new), E(!new)>(m: Machine<S, P, E>, s: S, more: Data) {
    var (s1, outcome) := m.next(s);
    match outcome
    case Idle => s1 == s
    case Failed(_) => m.next(m.append(s, more)).1 == outcome
    case Emitted(_) => m.next(m.append(s, more)) == (m.append(s1, more), outcome)
  }

  ghost predicate Stable<S(!new), P(!new), E(!new)>(m: Machine<S, P, E>) {
    forall s: S, more: Data :: StableAt(m, s, more)
  }

  ghost predicate Appends<S(!new), P(!new), E(!new)>(m: Machine<S, P, E>) {
    && (forall s: S :: m.append(s, []) == s)
    && (forall s: S, a: Data, b: Data :: m.append(m.append(s, a), b) == m.append(s, a + b))
  }

  ghost predicate Incremental<S(!new), P(!new), E(!new)>(m: Machine<S, P, E>) { Shrinks(m) && Stable(m) && Appends(m) }

  /** Pulls until there is nothing more to give, or an error. */
  ghost function Drain<S(!new), P(!new), E(!new)>(m: Machine<S, P, E>, s: S): Drained<S, P, E>
    requires Shrinks(m)
    decreases m.size(s)
  {
    var (s1, outcome) := m.next(s);
    match outcome
    case Idle => Drained(s1, [], None)
    case Failed(error) => Drained(s1, [], Some(error))
    case Emitted(packet) => Drain(m, s1).After(packet)
  }

  /** What a reader does: append a chunk, drain, and read on unless that failed. */
  ghost function ReadChunks<S(!new), P(!new), E(!new)>(m: Machine<S, P, E>, s: S, chunks: seq<Data>): Drained<S, P, E>
    requires Shrinks(m)
    decreases |chunks|
  {
    if chunks == [] then Drained(s, [], None)
    else
      var first := Drain(m, m.append(s, chunks[0]));
      if first.error.Some? then first
      else
        var rest := ReadChunks(m, first.state, chunks[1..]);
        rest.(packets := first.packets + rest.packets)
  }

  function Concat(chunks: seq<Data>): Data {
    if chunks == [] then [] else chunks[0] + Concat(chunks[1..])
  }

  /** Draining, then draining with more bytes, is draining with all of them. */
  lemma {:induction false} DrainThenMore<S(!new), P(!new), E(!new)>(m: Machine<S, P, E>, s: S, more: Data)
    requires Incremental(m)
    ensures var first := Drain(m, s);
            var all := Drain(m, m.append(s, more));
            if first.error.Some? then all.packets == first.packets && all.error == first.error
            else
              var rest := Drain(m, m.append(first.state, more));
              all == rest.(packets := first.packets + rest.packets)
    decreases m.size(s)
  {
    var (s1, outcome) := m.next(s);
    assert StableAt(m, s, more);
    match outcome
    case Emitted(packet) =>
      DrainThenMore(m, s1, more);
      var first := Drain(m, s1);
      if first.error.None? {
        var rest := Drain(m, m.append(first.state, more));
        assert [packet] + (first.packets + rest.packets) == ([packet] + first.packets) + rest.packets;
      }
    case Idle =>
      var rest := Drain(m, m.append(s, more));
      assert [] + rest.packets == rest.packets;
    case Failed(_) =>
  }

  lemma {:induction false} DrainIsQuiet<S(!new), P(!new), E(!new)>(m: Machine<S, P, E>, s: S)
    requires Incremental(m)
    ensures Drain(m, s).error.None? ==> m.next(Drain(m, s).state).1.Idle?
    decreases m.size(s)
  {
    assert StableAt(m, s, []);
    if m.next(s).1.Emitted? { DrainIsQuiet(m, m.next(s).0); }
  }

  /** Every way of cutting the bytes gives the same packets and the same error as having
      them all at once, and leaves the same state unless it failed. */
  lemma {:induction false} ChunksDoNotMatter<S(!new), P(!new), E(!new)>(m: Machine<S, P, E>, s: S, chunks: seq<Data>)
    requires Incremental(m) && m.next(s).1.Idle?
    ensures var cut, whole := ReadChunks(m, s, chunks), Drain(m, m.append(s, Concat(chunks)));
            && cut.packets == whole.packets && cut.error == whole.error
            && (cut.error.None? ==> cut.state == whole.state)
    decreases |chunks|
  {
    if chunks == [] {
      assert StableAt(m, s, []);
    } else {
      var first := Drain(m, m.append(s, chunks[0]));
      DrainThenMore(m, m.append(s, chunks[0]), Concat(chunks[1..]));
      if first.error.None? {
        DrainIsQuiet(m, m.append(s, chunks[0]));
        ChunksDoNotMatter(m, first.state, chunks[1..]);
      }
    }
  }
}
