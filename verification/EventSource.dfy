/** Event sources: batches are reversed onto a stack and popped, so events come out in arrival order
    (src/linux/netlink.rs, src/linux/wifi.rs). */
module EventSource {
  import opened Model
  import opened Wrappers
  import opened Netlink
  import opened Buffers
  import opened NetworkEvents

  /** One turn of the outside while nothing is pending: shutdown was requested, a buffer arrived, nothing
      arrived (with shutdown requested by then or not), or the socket failed. */
  datatype Turn =
    | ShutdownSeen
    | Received(buf: seq<byte>)
    | Quiet(shutdown: bool)
    | Broken

  /** How a source reads its buffers. */
  type Parser<!T> = seq<byte> -> Result<seq<T>, NetlinkError>

  datatype Answer<T> = Event(event: T) | Ended | Error | Blocked

  /** The pending stack, with its top last, and the turns to come; with none left the call blocks. */
  datatype Source<T> = Source(pending: seq<T>, turns: seq<Turn>)

  function Reversed<T>(s: seq<T>): (r: seq<T>)
    ensures |r| == |s|
  {
    if s == [] then [] else Reversed(s[1..]) + [s[0]]
  }

  function NextEvent<T>(s: Source<T>, parse: Parser<T>): (Source<T>, Answer<T>)
    decreases |s.turns|, |s.pending|
  {
    if s.pending != [] then
      var last := |s.pending| - 1;
      (s.(pending := s.pending[..last]), Event(s.pending[last]))
    else if s.turns == [] then (s, Blocked)
    else
      var rest := s.(turns := s.turns[1..]);
      match s.turns[0]
      case ShutdownSeen => (rest, Ended)
      case Received(buf) =>
        (match parse(buf)
         case Failure(_) => (rest, Error)
         case Success(events) => NextEvent(rest.(pending := Reversed(events)), parse))
      case Quiet(shutdown) => if shutdown then (rest, Ended) else NextEvent(rest, parse)
      case Broken => (rest, Error)
  }

  // --- Conservation ------------------------------------------------------------------------------

  /** What one turn brings: the parse result of its buffer, or nothing. */
  function Brought<T>(turn: Turn, parse: Parser<T>): seq<T> {
    if turn.Received? && parse(turn.buf).Success? then parse(turn.buf).value else []
  }

  /** The concatenated parse results of the buffers still to be received. */
  function Waiting<T>(turns: seq<Turn>, parse: Parser<T>): seq<T> {
    if turns == [] then [] else Brought(turns[0], parse) + Waiting(turns[1..], parse)
  }

  /** Everything still to be delivered, in order: the stack from its top, then what is to come. */
  function Queue<T>(s: Source<T>, parse: Parser<T>): seq<T> {
    Reversed(s.pending) + Waiting(s.turns, parse)
  }

  function Delivered<T>(answer: Answer<T>): seq<T> {
    if answer.Event? then [answer.event] else []
  }

  lemma {:induction false} ReversedSnoc<T>(s: seq<T>, x: T)
    ensures Reversed(s + [x]) == [x] + Reversed(s)
  {
    if s != [] {
      assert (s + [x])[1..] == s[1..] + [x];
      ReversedSnoc(s[1..], x);
      assert [x] + Reversed(s[1..]) + [s[0]] == [x] + Reversed(s);
    } else {
      assert s + [x] == [x] && [x][1..] == [];
    }
  }

  lemma {:induction false} ReversedTwice<T>(s: seq<T>)
    ensures Reversed(Reversed(s)) == s
  {
    if s != [] {
      ReversedTwice(s[1..]);
      ReversedSnoc(Reversed(s[1..]), s[0]);
      assert s == [s[0]] + s[1..];
    }
  }

  lemma AddInFront<T>(a: seq<T>, b: seq<T>, c: seq<T>)
    ensures a + b + c == a + (b + c) && a + b <= a + (b + c)
  {
  }

  lemma PopIsTheFront<T>(below: seq<T>, top: T, waiting: seq<T>)
    ensures [top] + (Reversed(below) + waiting) == Reversed(below + [top]) + waiting
  {
    ReversedSnoc(below, top);
    AddInFront([top], Reversed(below), waiting);
  }

  lemma PopConserves<T>(s: Source<T>, parse: Parser<T>)
    requires s.pending != []
    ensures var last := |s.pending| - 1;
            [s.pending[last]] + Queue(s.(pending := s.pending[..last]), parse) == Queue(s, parse)
  {
    var last := |s.pending| - 1;
    assert s.pending == s.pending[..last] + [s.pending[last]];
    PopIsTheFront(s.pending[..last], s.pending[last], Waiting(s.turns, parse));
  }

  /** With nothing pending, taking in what a turn brings keeps the queue. */
  lemma TakingInKeepsQueue<T>(turns: seq<Turn>, parse: Parser<T>)
    requires turns != []
    ensures Queue(Source(Reversed(Brought(turns[0], parse)), turns[1..]), parse) == Queue(Source([], turns), parse)
  {
    ReversedTwice(Brought(turns[0], parse));
  }

  /** One call delivers the front of the queue or leaves it as it is, and ends only when nothing is pending. */
  lemma {:induction false} NextEventConserves<T>(s: Source<T>, parse: Parser<T>)
    ensures var (after, answer) := NextEvent(s, parse);
            && Delivered(answer) + Queue(after, parse) == Queue(s, parse)
            && (answer.Ended? || answer.Blocked? ==> after.pending == [])
    decreases |s.turns|, |s.pending|
  {
    if s.pending != [] {
      PopConserves(s, parse);
    } else if s.turns != [] {
      TakingInKeepsQueue(s.turns, parse);
      var next := Source(Reversed(Brought(s.turns[0], parse)), s.turns[1..]);
      assert s == Source([], s.turns);
      NextEventConserves(next, parse);
    }
  }

  /** What `n` calls deliver, and the source after them. */
  function Deliveries<T>(s: Source<T>, parse: Parser<T>, n: nat): (seq<T>, Source<T>)
    decreases n
  {
    if n == 0 then ([], s)
    else
      var (after, answer) := NextEvent(s, parse);
      var (later, end) := Deliveries(after, parse, n - 1);
      (Delivered(answer) + later, end)
  }

  /** Over any number of calls, whatever fails in between, events come out in arrival order with none
      lost and none repeated: delivered so far plus still queued is what there was. */
  lemma {:induction false} EventsAreConserved<T>(s: Source<T>, parse: Parser<T>, n: nat)
    ensures var (delivered, after) := Deliveries(s, parse, n);
            delivered + Queue(after, parse) == Queue(s, parse) && delivered <= Queue(s, parse)
    decreases n
  {
    if n == 0 {
      assert [] + Queue(s, parse) == Queue(s, parse);
    } else {
      var (after, answer) := NextEvent(s, parse);
      NextEventConserves(s, parse);
      EventsAreConserved(after, parse, n - 1);
      var (later, end) := Deliveries(after, parse, n - 1);
      AddInFront(Delivered(answer), later, Queue(end, parse));
    }
  }

  /** What an rtnetlink buffer parses to. */
  function ParseEvents(buf: seq<byte>): Result<seq<NetworkEvent>, NetlinkError> {
    ParseTiled(buf, JudgeEvent)
  }

  /** The events an open rtnetlink source yields over any number of calls are a prefix of the concatenated
      parse results of the buffers it receives. */
  lemma YieldedIsAPrefixOfTheParsed(turns: seq<Turn>, n: nat)
    ensures Deliveries(Source([], turns), ParseEvents, n).0 <= Waiting(turns, ParseEvents)
  {
    var s: Source<NetworkEvent> := Source([], turns);
    EventsAreConserved(s, ParseEvents, n);
    assert Queue(s, ParseEvents) == Waiting(turns, ParseEvents);
  }

  // --- The source object ------------------------------------------------------------------------------

  /** An open event source; `turns` stands for what its socket and the shutdown flag will show. */
  class EventStream<T> {
    const parse: Parser<T>
    var pending: seq<T>
    var turns: seq<Turn>

    constructor (parse: Parser<T>, turns: seq<Turn>)
      ensures this.parse == parse && pending == [] && this.turns == turns
    {
      this.parse := parse;
      pending := [];
      this.turns := turns;
    }

    method Next() returns (answer: Answer<T>)
      modifies this
      ensures (Source(pending, turns), answer) == NextEvent(old(Source(pending, turns)), parse)
    {
      ghost var expected := NextEvent(Source(pending, turns), parse);
      while true
        invariant NextEvent(Source(pending, turns), parse) == expected
        decreases |turns|, |pending|
      {
        if pending != [] {
          var event := pending[|pending| - 1];
          pending := pending[..|pending| - 1];
          return Event(event);
        }
        if turns == [] {
          return Blocked;
        }
        var turn := turns[0];
        turns := turns[1..];
        match turn {
          case ShutdownSeen =>
            return Ended;
          case Received(buf) =>
            var parsed := parse(buf);
            if parsed.Failure? {
              return Error;
            }
            var batch := Reverse(parsed.value);
            pending := batch;
          case Quiet(shutdown) =>
            if shutdown {
              return Ended;
            }
          case Broken =>
            return Error;
        }
      }
    }

    method Reverse(events: seq<T>) returns (r: seq<T>)
      ensures r == Reversed(events)
    {
      r := [];
      var i := |events|;
      assert events[..i] == events && r + Reversed(events) == Reversed(events);
      while i > 0
        invariant 0 <= i <= |events|
        invariant Reversed(events) == r + Reversed(events[..i])
      {
        i := i - 1;
        assert events[..i + 1] == events[..i] + [events[i]];
        ReversedSnoc(events[..i], events[i]);
        r := r + [events[i]];
      }
    }
  }

  /** What a call answers: the pending event on top; with none pending, the end on a shutdown, an error on a
      broken socket or a buffer that does not parse, and the first event of a buffer that has any; a quiet or
      empty turn is passed over. */
  lemma NextEventAnswers<T>(s: Source<T>, parse: Parser<T>)
    ensures s.pending != [] ==> NextEvent(s, parse).1 == Event(s.pending[|s.pending| - 1])
    ensures s.pending == [] && s.turns == [] ==> NextEvent(s, parse).1 == Blocked
    ensures s.pending == [] && s.turns != [] ==>
              var turn, answer, rest := s.turns[0], NextEvent(s, parse).1, s.(turns := s.turns[1..]);
              && (turn.ShutdownSeen? || turn == Quiet(true) ==> answer == Ended)
              && (turn.Broken? || (turn.Received? && parse(turn.buf).Failure?) ==> answer == Error)
              && (turn == Quiet(false) || (turn.Received? && parse(turn.buf) == Success([]))
                  ==> NextEvent(s, parse) == NextEvent(rest, parse))
              && (turn.Received? && parse(turn.buf).Success? && parse(turn.buf).value != []
                  ==> answer == Event(parse(turn.buf).value[0]))
  {
    if s.pending == [] && s.turns != [] && s.turns[0].Received? && parse(s.turns[0].buf).Success? {
      var events := parse(s.turns[0].buf).value;
      if events == [] {
        assert s.(turns := s.turns[1..]) == s.(turns := s.turns[1..], pending := Reversed(events));
      } else {
        assert Reversed(events)[|events| - 1] == events[0];
      }
    }
  }
}
