/** The hand-over of readings to the push thread, src/PushData.cpp. */
module PushData {
  import opened Common

  type Thread = nat

  datatype DataTuple = DataTuple(time: int, value: real)

  type DataQueue = seq<DataTuple>
  type DataMap = map<string, DataQueue>

  // ------------------------------------------------------------------ the protocol

  /** The shared map, the threads inside pthread_cond_timedwait, and the history. */
  datatype State = State(next: Option<DataMap>, waiting: set<Thread>,
                         added: seq<(string, DataTuple)>, handed: seq<DataMap>)

  /** Each step holds the mutex: a wait gives it up until the thread is woken, by a broadcast, spuriously,
      or because its time is over. */
  datatype Step = Add(uuid: string, t: DataTuple) | Enter(thread: Thread) | Wake(thread: Thread, timedOut: bool)

  predicate HasData(next: Option<DataMap>) { next.Some? && next.value != map[] }

  function Queue(next: Option<DataMap>, uuid: string): DataQueue {
    if next.Some? && uuid in next.value then next.value[uuid] else []
  }

  function Pushed(next: Option<DataMap>, uuid: string, t: DataTuple): Option<DataMap> {
    var m := if next.None? then map[] else next.value;
    Some(m[uuid := Queue(next, uuid) + [t]])
  }

  function HandOver(s: State): State
    requires HasData(s.next)
  {
    s.(next := None, handed := s.handed + [s.next.value])
  }

  function Apply(s: State, step: Step): State {
    match step
    case Add(uuid, t) => s.(next := Pushed(s.next, uuid, t), added := s.added + [(uuid, t)])
    case Enter(thread) =>
      if thread in s.waiting then s
      else if HasData(s.next) then HandOver(s)
      else s.(waiting := s.waiting + {thread})
    case Wake(thread, timedOut) =>
      if thread !in s.waiting then s
      else if HasData(s.next) then
        // with data there but the time over the data stays for the next call
        if timedOut then s.(waiting := s.waiting - {thread})
        else HandOver(s).(waiting := s.waiting - {thread})
      else if timedOut then s.(waiting := s.waiting - {thread})
      else s
  }

  function Run(s: State, steps: seq<Step>): State
    decreases |steps|
  {
    if steps == [] then s else Run(Apply(s, steps[0]), steps[1..])
  }

  const START := State(None, {}, [], [])

  function AddedOf(added: seq<(string, DataTuple)>, uuid: string): DataQueue {
    if added == [] then []
    else
      var n := |added| - 1;
      AddedOf(added[..n], uuid) + if added[n].0 == uuid then [added[n].1] else []
  }

  function HandedOf(handed: seq<DataMap>, uuid: string): DataQueue {
    if handed == [] then [] else HandedOf(handed[..|handed| - 1], uuid) + Queue(Some(handed[|handed| - 1]), uuid)
  }

  /** What was handed over and what waits is what was added, in order, for one uuid. */
  ghost predicate Balanced(s: State, uuid: string) {
    HandedOf(s.handed, uuid) + Queue(s.next, uuid) == AddedOf(s.added, uuid)
  }

  lemma ApplyKeepsBalance(s: State, step: Step, uuid: string)
    requires Balanced(s, uuid)
    ensures Balanced(Apply(s, step), uuid)
  {
    hide HandedOf, AddedOf, Queue, Pushed;
    match step
    case Add(u, t) => AddBalance(s, u, t, uuid);
    case _ =>
      if HasData(s.next) { HandOverBalance(s, uuid); }
  }

  lemma AddBalance(s: State, u: string, t: DataTuple, uuid: string)
    requires Balanced(s, uuid)
    ensures Balanced(Apply(s, Add(u, t)), uuid)
  {
    hide HandedOf;
    assert (s.added + [(u, t)])[..|s.added|] == s.added;
    var rest := if u == uuid then [t] else [];
    assert Queue(Pushed(s.next, u, t), uuid) == Queue(s.next, uuid) + rest;
    assert HandedOf(s.handed, uuid) + (Queue(s.next, uuid) + rest) ==
           (HandedOf(s.handed, uuid) + Queue(s.next, uuid)) + rest;
  }

  lemma HandOverBalance(s: State, uuid: string)
    requires Balanced(s, uuid) && HasData(s.next)
    ensures Balanced(HandOver(s), uuid)
  {
    assert (s.handed + [s.next.value])[..|s.handed|] == s.handed;
  }

  /** Exactly once and first in, first out per uuid: over every interleaving of adding, entering, waking and
      timing out by any threads, the queues handed over, one after the other, followed by the waiting one
      are exactly what was added. A timeout that finds data leaves it for the next call. */
  lemma {:induction false} ExactlyOnce(s: State, steps: seq<Step>, uuid: string)
    requires Balanced(s, uuid)
    ensures Balanced(Run(s, steps), uuid)
    decreases |steps|
  {
    hide Apply, Balanced;
    if steps != [] {
      ApplyKeepsBalance(s, steps[0], uuid);
      ExactlyOnce(Apply(s, steps[0]), steps[1..], uuid);
    }
  }

  /** No hand-over is empty, and no queue in one is. */
  ghost predicate Full(m: DataMap) {
    m != map[] && forall uuid :: uuid in m ==> m[uuid] != []
  }

  ghost predicate AllFull(s: State) {
    && (s.next.Some? ==> Full(s.next.value))
    && (forall k :: 0 <= k < |s.handed| ==> Full(s.handed[k]))
  }

  lemma {:induction false} HandOversFull(s: State, steps: seq<Step>)
    requires AllFull(s)
    ensures AllFull(Run(s, steps))
    decreases |steps|
  {
    hide Run;
    if steps == [] {
      RunNone(s);
    } else {
      ApplyFull(s, steps[0]);
      HandOversFull(Apply(s, steps[0]), steps[1..]);
      RunFirst(s, steps);
    }
  }

  lemma RunNone(s: State)
    ensures Run(s, []) == s
  {
  }

  lemma RunFirst(s: State, steps: seq<Step>)
    requires steps != []
    ensures Run(s, steps) == Run(Apply(s, steps[0]), steps[1..])
  {
  }

  lemma ApplyFull(s: State, step: Step)
    requires AllFull(s)
    ensures AllFull(Apply(s, step))
  {
    if step.Add? {
      var m := Apply(s, step).next.value;
      assert step.uuid in m && m[step.uuid] != [];
    }
  }

  // ------------------------------------------------------------------ what waits goes out

  /** After every run in which something was added for a uuid and not handed over: a thread that enters, or one
      that is woken in time, takes everything with it. */
  lemma DataGoesOut(steps: seq<Step>, thread: Thread, uuid: string)
    requires HandedOf(Run(START, steps).handed, uuid) != AddedOf(Run(START, steps).added, uuid)
    ensures var t := Run(START, steps);
            var u := Apply(t, if thread in t.waiting then Wake(thread, false) else Enter(thread));
            && t.next.Some? && u.handed == t.handed + [t.next.value] && u.next == None
            && u.added == t.added && u.waiting == t.waiting - {thread}
            && HandedOf(u.handed, uuid) == AddedOf(u.added, uuid)
  {
    hide Run, HandedOf, AddedOf;
    StartBalanced(uuid);
    ExactlyOnce(START, steps, uuid);
    var t := Run(START, steps);
    assert HandedOf(t.handed, uuid) + [] == HandedOf(t.handed, uuid);
    assert Queue(t.next, uuid) != [];
    var step := if thread in t.waiting then Wake(thread, false) else Enter(thread);
    ApplyKeepsBalance(t, step, uuid);
    var u := Apply(t, step);
    assert HandedOf(u.handed, uuid) + [] == HandedOf(u.handed, uuid);
  }

  lemma StartBalanced(uuid: string)
    ensures Balanced(START, uuid)
  {
  }

  /** A thread enters and is woken in turn. Without data one that enters waits and one that is woken in time
      goes on waiting; at a timeout it leaves, and what is there stays. */
  lemma WaitingThread(s: State, thread: Thread)
    ensures thread in s.waiting ==> Apply(s, Wake(thread, true)) == s.(waiting := s.waiting - {thread})
    ensures s.next == None && thread in s.waiting ==> Apply(s, Wake(thread, false)) == s
    ensures thread in s.waiting ==> Apply(s, Enter(thread)) == s
    ensures thread !in s.waiting ==> forall timedOut :: Apply(s, Wake(thread, timedOut)) == s
    ensures s.next == None && thread !in s.waiting ==> Apply(s, Enter(thread)) == s.(waiting := s.waiting + {thread})
  {
  }

  // ------------------------------------------------------------------ the classes

  /** How one pthread_cond_timedwait ends, and what other threads added meanwhile. */
  datatype Wakeup = Wakeup(timedOut: bool, adds: seq<(string, DataTuple)>)

  class PushDataList {
    var next: Option<DataMap>
    ghost var added: seq<(string, DataTuple)>
    ghost var handed: seq<DataMap>

    ghost function View(): State
      reads this
    {
      State(next, {}, added, handed)
    }

    constructor ()
      ensures View() == START
    {
      next, added, handed := None, [], [];
    }

    method Add(uuid: string, time: int, value: real)
      modifies this
      ensures View() == Apply(old(View()), Step.Add(uuid, DataTuple(time, value)))
    {
      added := added + [(uuid, DataTuple(time, value))];
      if next == None {
        next := Some(map[]);
      }
      var q := if uuid in next.value then next.value[uuid] else [];
      next := Some(next.value[uuid := q + [DataTuple(time, value)]]);
    }

    method AddAll(adds: seq<(string, DataTuple)>)
      modifies this
      ensures handed == old(handed) && added == old(added) + adds
      ensures forall uuid :: Balanced(old(View()), uuid) ==> Balanced(View(), uuid)
      ensures adds != [] ==> HasData(next)
      ensures adds == [] ==> next == old(next)
    {
      hide Balanced;
      var i: nat := 0;
      while i < |adds|
        invariant i <= |adds| && handed == old(handed) && added == old(added) + adds[..i]
        invariant forall uuid :: Balanced(old(View()), uuid) ==> Balanced(View(), uuid)
        invariant i > 0 ==> HasData(next)
        invariant i == 0 ==> next == old(next)
      {
        ghost var was := View();
        Add(adds[i].0, adds[i].1.time, adds[i].1.value);
        AddBalances(was, Step.Add(adds[i].0, adds[i].1));
        assert adds[..i + 1] == adds[..i] + [adds[i]];
        assert HasQueue(next, adds[i].0);
        i := i + 1;
      }
    }

    /** Waits for data, at most until the time is over. Data is handed over unless the wait that found it
        timed out; then it stays. Either way nothing added before or meanwhile is lost or doubled. */
    method WaitForData(wakeups: seq<Wakeup>) returns (toRet: Option<DataMap>, ghost used: nat)
      requires wakeups != [] && wakeups[|wakeups| - 1].timedOut
      modifies this
      ensures used <= |wakeups| && (used == 0 <==> HasData(old(next)))
      ensures forall i :: 0 <= i < used - 1 ==> !wakeups[i].timedOut && wakeups[i].adds == []
      ensures added == old(added) + if used == 0 then [] else wakeups[used - 1].adds
      ensures toRet.Some? <==> used == 0 || !wakeups[used - 1].timedOut
      ensures toRet.Some? ==> toRet.value != map[] && next == None && handed == old(handed) + [toRet.value]
      ensures toRet.None? ==> handed == old(handed) && (wakeups[used - 1].adds != [] ==> HasData(next))
      ensures forall uuid :: Balanced(old(View()), uuid) ==> Balanced(View(), uuid)
    {
      hide Balanced;
      toRet := None;
      var timedOut, i := false, 0;
      used := 0;
      while !HasData(next) && !timedOut
        invariant 0 <= i <= |wakeups| && used == i
        invariant i == |wakeups| ==> timedOut
        invariant handed == old(handed)
        invariant i == 0 ==> added == old(added) && next == old(next) && !timedOut
        invariant i > 0 ==> !HasData(old(next)) && timedOut == wakeups[i - 1].timedOut
        invariant i > 0 ==> added == old(added) + wakeups[i - 1].adds && (HasData(next) <==> wakeups[i - 1].adds != [])
        invariant forall k :: 0 <= k < i - 1 ==> !wakeups[k].timedOut && wakeups[k].adds == []
        invariant forall uuid :: Balanced(old(View()), uuid) ==> Balanced(View(), uuid)
        decreases |wakeups| - i
      {
        AddAll(wakeups[i].adds);
        timedOut := wakeups[i].timedOut;
        i := i + 1;
        used := i;
      }
      if !timedOut {
        ghost var was := View();
        toRet := next;
        handed := handed + [next.value];
        next := None;
        HandOverBalances(was);
        assert View() == HandOver(was);
      }
    }
  }

  predicate HasQueue(next: Option<DataMap>, uuid: string) { next.Some? && uuid in next.value }

  lemma AddBalances(s: State, step: Step)
    ensures forall uuid :: Balanced(s, uuid) ==> Balanced(Apply(s, step), uuid)
  {
    hide Balanced;
    forall uuid | Balanced(s, uuid)
      ensures Balanced(Apply(s, step), uuid)
    {
      ApplyKeepsBalance(s, step, uuid);
    }
  }

  lemma HandOverBalances(s: State)
    requires HasData(s.next)
    ensures forall uuid :: Balanced(s, uuid) ==> Balanced(HandOver(s), uuid)
  {
    hide Balanced;
    forall uuid | Balanced(s, uuid)
      ensures Balanced(HandOver(s), uuid)
    {
      HandOverBalance(s, uuid);
    }
  }

  // ------------------------------------------------------------------ draining

  /** One uuid's object in the JSON text. */
  datatype Item = Item(uuid: string, tuples: seq<DataTuple>)

  /** The uuids of a map without the remaining ones, each once, with all their tuples in order. */
  ghost predicate Listed(data: seq<Item>, m: DataMap, remaining: set<string>) {
    && (forall i :: 0 <= i < |data| ==>
          data[i].uuid in m && data[i].uuid !in remaining && data[i].tuples == m[data[i].uuid])
    && (forall i, j :: 0 <= i < j < |data| ==> data[i].uuid != data[j].uuid)
    && (forall uuid :: uuid in m && uuid !in remaining ==> exists i :: 0 <= i < |data| && data[i].uuid == uuid)
  }

  lemma ListedNone(m: DataMap)
    ensures Listed([], m, m.Keys)
  {
  }

  lemma ListedNext(data: seq<Item>, m: DataMap, remaining: set<string>, uuid: string)
    requires Listed(data, m, remaining) && uuid in remaining && uuid in m
    ensures Listed(data + [Item(uuid, m[uuid])], m, remaining - {uuid})
  {
    var next := data + [Item(uuid, m[uuid])];
    assert forall i :: 0 <= i < |data| ==> next[i] == data[i];
    assert next[|data|].uuid == uuid;
    forall u | u in m && u !in remaining - {uuid}
      ensures exists i :: 0 <= i < |next| && next[i].uuid == u
    {
      if u != uuid {
        var i :| 0 <= i < |data| && data[i].uuid == u;
        assert next[i].uuid == u;
      }
    }
  }

  /** generateJson: each uuid once, with all its tuples in order; the queues are drained on the way. The map
      is visited in an order of its own. */
  method GenerateJson(dataMap: DataMap) returns (data: seq<Item>, left: DataMap)
    ensures Listed(data, dataMap, {})
    ensures left.Keys == dataMap.Keys && forall uuid :: uuid in left ==> left[uuid] == []
  {
    hide Listed;
    ListedNone(dataMap);
    data, left := [], dataMap;
    var todo := dataMap.Keys;
    while todo != {}
      invariant todo <= dataMap.Keys == left.Keys
      invariant Listed(data, dataMap, todo)
      invariant forall uuid :: uuid in dataMap && uuid !in todo ==> left[uuid] == []
      invariant forall uuid :: uuid in todo ==> left[uuid] == dataMap[uuid]
      decreases |todo|
    {
      var uuid :| uuid in todo;
      var tuples, queue := Drain(left[uuid]);
      ListedNext(data, dataMap, todo, uuid);
      left := left[uuid := queue];
      data := data + [Item(uuid, tuples)];
      todo := todo - {uuid};
    }
  }

  method Drain(q: DataQueue) returns (tuples: seq<DataTuple>, queue: DataQueue)
    ensures tuples == q && queue == []
  {
    tuples, queue := [], q;
    while queue != []
      invariant tuples + queue == q
      decreases |queue|
    {
      tuples := tuples + [queue[0]];
      queue := queue[1..];
    }
  }
}
