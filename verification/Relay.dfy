/**
  The adapter relay: one reader, a worker for every request it admits, and two bounded pools, one of which
  is kept for cancellations.
 */
module Relay {
  import opened Common

  const MaxRequests: nat := 64
  const MaxDeletes: nat := 8

  function Capacity(isDelete: bool): nat {
    if isDelete then MaxDeletes else MaxRequests
  }

  /** A worker handles its request, tries to write the response, then gives its slot back. */
  datatype Phase = Handling | Answered | Finished

  datatype Worker = Worker(isDelete: bool, phase: Phase)

  /** The reader waits for a message, must write that it is busy, or has stopped. */
  datatype Reader = Reading | Refusing(request: nat) | Stopped

  /** Requests are numbered as they arrive; `slots` and `deleteSlots` are the two channels' contents. */
  datatype State = State(
    reader: Reader, arrived: nat, workers: map<nat, Worker>, slots: nat, deleteSlots: nat,
    writes: seq<nat>, refused: set<nat>, cancelled: bool)

  /** What a write came to; a response that cannot be encoded is never written. */
  datatype Write = Sent | WriteFailed | NotEncoded

  datatype Event =
    | Receive(isDelete: bool)
    | ReadFails
    | WorkerWrites(request: nat, write: Write)
    | Releases(request: nat)
    | RefusalWritten(write: Write)

  const Start: State := State(Reading, 0, map[], 0, 0, [], {}, false)

  function Held(s: State, isDelete: bool): nat {
    if isDelete then s.deleteSlots else s.slots
  }

  function WithHeld(s: State, isDelete: bool, n: nat): State {
    if isDelete then s.(deleteSlots := n) else s.(slots := n)
  }

  predicate Enabled(s: State, e: Event) {
    match e
    case Receive(_) => s.reader == Reading
    case ReadFails => s.reader == Reading
    case WorkerWrites(n, _) => n in s.workers && s.workers[n].phase == Handling
    case Releases(n) => n in s.workers && s.workers[n].phase == Answered && Held(s, s.workers[n].isDelete) > 0
    case RefusalWritten(_) => s.reader.Refusing?
  }

  function Written(s: State, n: nat, write: Write): State {
    s.(writes := if write == NotEncoded then s.writes else s.writes + [n],
       cancelled := s.cancelled || write != Sent)
  }

  function Apply(s: State, e: Event): State
    requires Enabled(s, e)
  {
    match e
    case Receive(isDelete) =>
      var n, next := s.arrived, s.(arrived := s.arrived + 1);
      if Held(s, isDelete) < Capacity(isDelete) then
        WithHeld(next.(workers := s.workers[n := Worker(isDelete, Handling)]), isDelete, Held(s, isDelete) + 1)
      else next.(reader := Refusing(n), refused := s.refused + {n})
    case ReadFails => s.(reader := Stopped)
    case WorkerWrites(n, write) => Written(s.(workers := s.workers[n := s.workers[n].(phase := Answered)]), n, write)
    case Releases(n) =>
      var w := s.workers[n];
      WithHeld(s.(workers := s.workers[n := w.(phase := Finished)]), w.isDelete, Held(s, w.isDelete) - 1)
    case RefusalWritten(write) =>
      Written(s, s.reader.request, write).(reader := if write == Sent then Reading else Stopped)
  }

  // ----- runs -----

  /** Where an interleaving of arrivals, writes and completions leads, if the relay allows it. */
  function After(events: seq<Event>): (r: Option<State>) {
    if events == [] then Some(Start)
    else
      var before, e := After(events[..|events| - 1]), events[|events| - 1];
      if before.Some? && Enabled(before.value, e) then Some(Apply(before.value, e)) else None
  }

  // ----- what every run keeps -----

  /** The unfinished workers of one pool. */
  function Unfinished(workers: map<nat, Worker>, isDelete: bool): set<nat> {
    set n | n in workers && workers[n].isDelete == isDelete && workers[n].phase != Finished
  }

  /** Each pool's slots are held by exactly its unfinished workers, and there are enough. */
  predicate SlotsMatch(s: State) {
    forall isDelete :: Held(s, isDelete) == |Unfinished(s.workers, isDelete)| <= Capacity(isDelete)
  }

  /** A request is a worker's or a refused one, not both, and none is from the future. */
  predicate Numbered(s: State) {
    && (forall n | n in s.workers :: n < s.arrived && n !in s.refused)
    && (forall n | n in s.refused :: n < s.arrived)
    && (s.reader.Refusing? ==> s.reader.request in s.refused)
  }

  /** The request's response may have been written: its worker has answered or its refusal is out. */
  predicate MayBeWritten(s: State, n: nat) {
    || (n in s.workers && s.workers[n].phase != Handling)
    || (n in s.refused && s.reader != Refusing(n))
  }

  predicate WrittenOnce(s: State) {
    forall i, j | 0 <= i < j < |s.writes| :: s.writes[i] != s.writes[j]
  }

  predicate WritesAreDue(s: State) {
    forall i | 0 <= i < |s.writes| :: MayBeWritten(s, s.writes[i])
  }

  predicate Inv(s: State) {
    SlotsMatch(s) && Numbered(s) && WrittenOnce(s) && WritesAreDue(s)
  }

  // ----- every step keeps it -----

  lemma Admitted(workers: map<nat, Worker>, n: nat, isDelete: bool)
    requires n !in workers
    ensures var more := workers[n := Worker(isDelete, Handling)];
            && |Unfinished(more, isDelete)| == |Unfinished(workers, isDelete)| + 1
            && Unfinished(more, !isDelete) == Unfinished(workers, !isDelete)
  {
    var more := workers[n := Worker(isDelete, Handling)];
    assert Unfinished(more, isDelete) == Unfinished(workers, isDelete) + {n};
  }

  lemma Freed(workers: map<nat, Worker>, n: nat)
    requires n in workers && workers[n].phase != Finished
    ensures var less, isDelete := workers[n := workers[n].(phase := Finished)], workers[n].isDelete;
            && |Unfinished(less, isDelete)| == |Unfinished(workers, isDelete)| - 1
            && Unfinished(less, !isDelete) == Unfinished(workers, !isDelete)
  {
    var less, isDelete := workers[n := workers[n].(phase := Finished)], workers[n].isDelete;
    assert Unfinished(less, isDelete) == Unfinished(workers, isDelete) - {n};
  }

  lemma StillUnfinished(workers: map<nat, Worker>, n: nat)
    requires n in workers && workers[n].phase == Handling
    ensures forall isDelete ::
              Unfinished(workers[n := workers[n].(phase := Answered)], isDelete) == Unfinished(workers, isDelete)
  {
  }

  lemma StepKeepsSlots(s: State, e: Event)
    requires Inv(s) && Enabled(s, e)
    ensures SlotsMatch(Apply(s, e))
  {
    match e
    case Receive(isDelete) =>
      assert s.arrived !in s.workers;
      Admitted(s.workers, s.arrived, isDelete);
      assert Held(s, isDelete) == |Unfinished(s.workers, isDelete)|;
      assert Held(s, !isDelete) == |Unfinished(s.workers, !isDelete)|;
    case WorkerWrites(n, _) =>
      StillUnfinished(s.workers, n);
    case Releases(n) =>
      Freed(s.workers, n);
      var isDelete := s.workers[n].isDelete;
      assert Held(s, isDelete) == |Unfinished(s.workers, isDelete)|;
      assert Held(s, !isDelete) == |Unfinished(s.workers, !isDelete)|;
    case ReadFails =>
    case RefusalWritten(_) =>
  }

  lemma StepKeepsNumbers(s: State, e: Event)
    requires Inv(s) && Enabled(s, e)
    ensures Numbered(Apply(s, e))
  {
  }

  /** A request whose turn to be written has come stays so. */
  lemma StepKeepsDue(s: State, e: Event, n: nat)
    requires Inv(s) && Enabled(s, e) && MayBeWritten(s, n)
    ensures MayBeWritten(Apply(s, e), n)
  {
  }

  lemma StepKeepsWrites(s: State, e: Event)
    requires Inv(s) && Enabled(s, e)
    ensures WrittenOnce(Apply(s, e)) && WritesAreDue(Apply(s, e))
  {
    var s' := Apply(s, e);
    forall i | 0 <= i < |s.writes|
      ensures MayBeWritten(s', s.writes[i])
    {
      StepKeepsDue(s, e, s.writes[i]);
    }
    if e.WorkerWrites? {
      assert !MayBeWritten(s, e.request) && MayBeWritten(s', e.request);
    }
    if e.RefusalWritten? {
      assert !MayBeWritten(s, s.reader.request) && MayBeWritten(s', s.reader.request);
    }
  }

  /** In every interleaving, each pool's held slots are its unfinished workers, at most 64 and 8, and no
      request is answered twice. */
  lemma {:induction false} EveryRunKeeps(events: seq<Event>)
    requires After(events).Some?
    ensures Inv(After(events).value)
    decreases |events|
  {
    if events == [] {
      assert Unfinished(map[], true) == {} && Unfinished(map[], false) == {};
    } else {
      var front, e := events[..|events| - 1], events[|events| - 1];
      EveryRunKeeps(front);
      var s := After(front).value;
      StepKeepsSlots(s, e);
      StepKeepsNumbers(s, e);
      StepKeepsWrites(s, e);
    }
  }

  /** A worker can always give its slot back. */
  lemma SlotsCanBeReleased(events: seq<Event>, n: nat)
    requires After(events).Some?
    requires var s := After(events).value; n in s.workers && s.workers[n].phase == Answered
    ensures Enabled(After(events).value, Releases(n))
  {
    EveryRunKeeps(events);
    var s := After(events).value;
    var isDelete := s.workers[n].isDelete;
    assert n in Unfinished(s.workers, isDelete);
    assert Held(s, isDelete) == |Unfinished(s.workers, isDelete)|;
  }

  /** A request is refused as busy exactly when as many earlier requests of its own kind as the pool holds
      are unfinished; the other kind never matters. */
  lemma RefusedIff(events: seq<Event>, isDelete: bool)
    requires After(events).Some? && Enabled(After(events).value, Receive(isDelete))
    ensures var s := After(events).value;
            && (Apply(s, Receive(isDelete)).reader == Refusing(s.arrived) <==>
                |Unfinished(s.workers, isDelete)| == Capacity(isDelete))
            && (Apply(s, Receive(isDelete)).reader != Refusing(s.arrived) ==>
                Apply(s, Receive(isDelete)).workers == s.workers[s.arrived := Worker(isDelete, Handling)])
            && forall n | n in Unfinished(s.workers, isDelete) :: n < s.arrived && s.workers[n].isDelete == isDelete
  {
    EveryRunKeeps(events);
    var s := After(events).value;
    assert Held(s, isDelete) == |Unfinished(s.workers, isDelete)| <= Capacity(isDelete);
  }

  // ----- what is written -----

  /** The request that the last of these events answers, if it does. */
  function AnsweredBy(events: seq<Event>): Option<nat>
    requires events != []
  {
    var before, e := After(events[..|events| - 1]), events[|events| - 1];
    match e
    case WorkerWrites(n, write) => if write != NotEncoded then Some(n) else None
    case RefusalWritten(write) =>
      if write != NotEncoded && before.Some? && before.value.reader.Refusing? then Some(before.value.reader.request)
      else None
    case _ => None
  }

  function Answers(events: seq<Event>): seq<nat> {
    if events == [] then []
    else Answers(events[..|events| - 1]) + if AnsweredBy(events).Some? then [AnsweredBy(events).value] else []
  }

  predicate SomeWriteFailed(events: seq<Event>) {
    exists e | e in events :: (e.WorkerWrites? || e.RefusalWritten?) && e.write != Sent
  }

  /** In every interleaving the responses on the wire are exactly the answers of the workers and the refusals, in the
      order in which they were given; and the relay is cancelled exactly if one of them could not be sent. */
  lemma {:induction false} WritesAreTheAnswers(events: seq<Event>)
    requires After(events).Some?
    ensures After(events).value.writes == Answers(events)
    ensures After(events).value.cancelled <==> SomeWriteFailed(events)
    decreases |events|
  {
    if events != [] {
      var front, e := events[..|events| - 1], events[|events| - 1];
      WritesAreTheAnswers(front);
      assert events == front + [e];
      assert SomeWriteFailed(events) <==>
             SomeWriteFailed(front) || ((e.WorkerWrites? || e.RefusalWritten?) && e.write != Sent);
    }
  }

  /** The request has been dealt with: its worker is done or it was refused, and a response was written unless that
      could not be encoded. */
  predicate Outstanding(s: State, n: nat) {
    (n in s.workers && s.workers[n].phase == Handling) || s.reader == Refusing(n)
  }

  predicate GaveUpOn(events: seq<Event>) {
    exists e | e in events :: (e.WorkerWrites? || e.RefusalWritten?) && e.write == NotEncoded
  }

  /** No request is lost: in every interleaving each one that arrived is being handled or refused, or its response
      was written, unless some response could not be encoded. */
  lemma {:induction false} NoRequestIsLost(events: seq<Event>, n: nat)
    requires After(events).Some? && n < After(events).value.arrived && !GaveUpOn(events)
    ensures var s := After(events).value; Outstanding(s, n) || n in s.writes
    decreases |events|
  {
    var front, e := events[..|events| - 1], events[|events| - 1];
    assert events == front + [e];
    assert forall x | x in front :: x in events;
    var s := After(front).value;
    if n < s.arrived {
      NoRequestIsLost(front, n);
    }
  }

  // ----- when the reader stops -----

  predicate StopsReader(e: Event) {
    e == ReadFails || (e.RefusalWritten? && e.write != Sent)
  }

  /** After a failed read, or a refusal that could not be sent, nothing more is received; and nothing else stops the
      reader. */
  lemma {:induction false} ReaderStopsIff(events: seq<Event>)
    requires After(events).Some?
    ensures After(events).value.reader == Stopped <==> exists e | e in events :: StopsReader(e)
    decreases |events|
  {
    if events != [] {
      var front, e := events[..|events| - 1], events[|events| - 1];
      ReaderStopsIff(front);
      assert events == front + [e];
      assert (exists x | x in events :: StopsReader(x)) <==>
             (exists x | x in front :: StopsReader(x)) || StopsReader(e);
    }
  }

  lemma NothingReceivedAfter(events: seq<Event>, i: nat, j: nat)
    requires After(events).Some? && i < j < |events| && StopsReader(events[i])
    ensures !events[j].Receive? && !events[j].ReadFails?
  {
    PrefixIsARun(events, j);
    PrefixIsARun(events, j + 1);
    ReaderStopsIff(events[..j]);
    assert events[..j][i] == events[i] && events[i] in events[..j];
    assert events[..j + 1][..j] == events[..j];
  }

  lemma {:induction false} PrefixIsARun(events: seq<Event>, n: nat)
    requires After(events).Some? && n <= |events|
    ensures After(events[..n]).Some?
    decreases |events|
  {
    if n == |events| {
      assert events[..n] == events;
    } else {
      PrefixIsARun(events[..|events| - 1], n);
      assert events[..|events| - 1][..n] == events[..n];
    }
  }

  // ----- reconnecting -----

  const MinBackoff: nat := 250
  const MaxBackoff: nat := 5000

  function Doubled(n: nat): nat {
    if n == 0 then MinBackoff else 2 * Doubled(n - 1)
  }

  lemma {:induction false} DoubledGrows(m: nat, n: nat)
    requires m <= n
    ensures Doubled(m) <= Doubled(n)
    decreases n
  {
    if m < n {
      DoubledGrows(m, n - 1);
    }
  }

  /** In milliseconds: doubled for every attempt, up to the maximum. */
  method Backoff(attempt: int) returns (delay: nat)
    ensures var n := if attempt < 0 then 0 else attempt;
            delay == if Doubled(n) < MaxBackoff then Doubled(n) else MaxBackoff
  {
    var n := if attempt < 0 then 0 else attempt;
    delay := MinBackoff;
    var i := 0;
    while i < n && delay < MaxBackoff
      invariant 0 <= i <= n && delay == Doubled(i) < MaxBackoff
    {
      delay := delay * 2;
      i := i + 1;
      if delay >= MaxBackoff {
        DoubledGrows(i, n);
        return MaxBackoff;
      }
    }
  }
}
