/** Parsing a stream that arrives in pieces: a buffer is drained of complete items each time bytes arrive. */
module IncrementalParsing {

  /** What a parser sees at the front of the buffer: not enough yet, an item, or the last item. */
  datatype Front<I> = Incomplete | More(item: I, used: nat) | Last(item: I, used: nat)

  datatype Outcome<I, B> = Outcome(items: seq<I>, rest: seq<B>, closed: bool)

  ghost predicate Sound<I(!new), B(!new)>(parse: seq<B> -> Front<I>) {
    forall b: seq<B> ::
      && (parse(b).More? ==> 0 < parse(b).used <= |b|)
      && (parse(b).Last? ==> parse(b).used <= |b|)
  }

  /** Bytes that arrive later never change a front that has been decided. */
  ghost predicate Stable<I(!new), B(!new)>(parse: seq<B> -> Front<I>) {
    forall a: seq<B>, b: seq<B> :: !parse(a).Incomplete? ==> parse(a + b) == parse(a)
  }

  function Drain<I(!new), B(!new)>(parse: seq<B> -> Front<I>, buffer: seq<B>): Outcome<I, B>
    requires Sound(parse)
    decreases |buffer|
  {
    match parse(buffer)
    case Incomplete => Outcome([], buffer, false)
    case Last(item, used) => Outcome([item], buffer[used..], true)
    case More(item, used) =>
      var later := Drain(parse, buffer[used..]);
      Outcome([item] + later.items, later.rest, later.closed)
  }

  /** The outcome of a whole buffer from those of its two pieces. */
  predicate Joins<I(==), B(==)>(first: Outcome<I, B>, second: Outcome<I, B>, whole: Outcome<I, B>) {
    if first.closed then whole.items == first.items && whole.closed
    else whole == Outcome(first.items + second.items, second.rest, second.closed)
  }

  /** What draining `buffer` and then the leftover with `more` has to do with draining all at once. */
  ghost predicate SplitAgrees<I(!new), B(!new)>(parse: seq<B> -> Front<I>, buffer: seq<B>, more: seq<B>)
    requires Sound(parse)
  {
    var first := Drain(parse, buffer);
    Joins(first, Drain(parse, first.rest + more), Drain(parse, buffer + more))
  }

  lemma DrainMore<I(!new), B(!new)>(parse: seq<B> -> Front<I>, buffer: seq<B>, item: I, used: nat)
    requires Sound(parse) && parse(buffer) == More(item, used)
    ensures var later := Drain(parse, buffer[used..]);
            Drain(parse, buffer) == Outcome([item] + later.items, later.rest, later.closed)
  {
  }

  lemma JoinsAfterItem<I, B>(item: I, first: Outcome<I, B>, second: Outcome<I, B>, whole: Outcome<I, B>)
    requires Joins(first, second, whole)
    ensures Joins(first.(items := [item] + first.items), second, whole.(items := [item] + whole.items))
  {
    assert [item] + (first.items + second.items) == [item] + first.items + second.items;
  }

  lemma SplitAfterItem<I(!new), B(!new)>(parse: seq<B> -> Front<I>, buffer: seq<B>, more: seq<B>)
    requires Sound(parse) && parse(buffer).More? && parse(buffer + more) == parse(buffer)
    requires SplitAgrees(parse, buffer[parse(buffer).used..], more)
    ensures SplitAgrees(parse, buffer, more)
  {
    var item, used := parse(buffer).item, parse(buffer).used;
    assert (buffer + more)[used..] == buffer[used..] + more;
    DrainMore(parse, buffer, item, used);
    DrainMore(parse, buffer + more, item, used);
    var first, whole := Drain(parse, buffer[used..]), Drain(parse, buffer[used..] + more);
    JoinsAfterItem(item, first, Drain(parse, first.rest + more), whole);
  }

  /** Delivery in two pieces: the same items, the same verdict and the same leftover as in one piece,
      up to the end of the stream of items. */
  lemma {:induction false} DrainSplit<I(!new), B(!new)>(parse: seq<B> -> Front<I>, buffer: seq<B>, more: seq<B>)
    requires Sound(parse) && Stable(parse)
    ensures SplitAgrees(parse, buffer, more)
    decreases |buffer|
  {
    match parse(buffer)
    case Incomplete =>
      var whole := Drain(parse, buffer + more);
      assert [] + whole.items == whole.items;
    case Last(_, _) =>
      assert parse(buffer + more) == parse(buffer);
    case More(_, used) =>
      assert parse(buffer + more) == parse(buffer);
      DrainSplit(parse, buffer[used..], more);
      SplitAfterItem(parse, buffer, more);
  }

  /** One arrival: the piece is appended to what is left and the buffer is drained again. */
  function Feed<I(!new), B(!new)>(parse: seq<B> -> Front<I>, state: Outcome<I, B>, chunk: seq<B>): Outcome<I, B>
    requires Sound(parse)
  {
    if state.closed then state
    else
      var next := Drain(parse, state.rest + chunk);
      Outcome(state.items + next.items, next.rest, next.closed)
  }

  /** The state after the pieces have arrived one by one. */
  function FeedAll<I(!new), B(!new)>(parse: seq<B> -> Front<I>, chunks: seq<seq<B>>): Outcome<I, B>
    requires Sound(parse)
  {
    if chunks == [] then Outcome([], [], false)
    else Feed(parse, FeedAll(parse, chunks[..|chunks| - 1]), chunks[|chunks| - 1])
  }

  function Concat<B>(chunks: seq<seq<B>>): seq<B> {
    if chunks == [] then [] else Concat(chunks[..|chunks| - 1]) + chunks[|chunks| - 1]
  }

  /** The same items and the same verdict; while more can come, the same leftover. */
  predicate Agree<I(==), B(==)>(a: Outcome<I, B>, b: Outcome<I, B>) {
    a.items == b.items && a.closed == b.closed && (!a.closed ==> a.rest == b.rest)
  }

  /** Feeding the pieces one by one gives what draining the whole stream at once gives. */
  lemma {:induction false} FeedAllIsDrain<I(!new), B(!new)>(parse: seq<B> -> Front<I>, chunks: seq<seq<B>>)
    requires Sound(parse) && Stable(parse)
    requires parse([]).Incomplete?
    ensures Agree(FeedAll(parse, chunks), Drain(parse, Concat(chunks)))
  {
    if chunks != [] {
      var n := |chunks| - 1;
      FeedAllIsDrain(parse, chunks[..n]);
      DrainSplit(parse, Concat(chunks[..n]), chunks[n]);
    }
  }
}
