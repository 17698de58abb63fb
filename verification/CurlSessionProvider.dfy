/** One curl session per key for any number of threads, src/CurlSessionProvider.cpp, as atomic steps between
    lock operations. */
module CurlSessionProvider {
  import opened Common

  type Thread = nat
  type Handle = nat

  /** An entry of the map; the owner is the thread that holds its mutex. */
  datatype CurlUsage = CurlUsage(eh: Handle, inUse: bool, mutex: Option<Thread>)

  /** Where a thread is. */
  datatype Pc =
    | Idle
    | GetWantsMap(key: string)              // before the map lock in get_easy_session
    | GetFinds(key: string)                 // with the map lock, before find
    | GetFound(key: string)                 // entry found, before the map is unlocked
    | GetWaits(key: string)                 // in the loop around the timed lock, without the map lock
    | GetLocked(key: string)                // with the session lock, before the assertion
    | GetCreated(key: string, eh: Handle)   // entry made, before the map is unlocked
    | Holds(key: string, eh: Handle)        // between get_easy_session and return_session
    | RetWantsMap(key: string, eh: Handle)
    | RetLooksUp(key: string, eh: Handle)   // with the map lock, before the assertion
    | RetCleared(key: string)               // inUse cleared, before the session is unlocked
    | RetUnlocked(key: string)              // before the map is unlocked
    | AskWantsMap(key: string)              // in inUse
    | AskFinds(key: string)
    | AskReads(key: string)                 // entry found, the map unlocked again
    | Gone                                  // cancelled at the cancellation point

  datatype State = State(mapMutex: Option<Thread>, handles: map<string, CurlUsage>, pcs: map<Thread, Pc>)

  datatype Call = Get(key: string) | Return | Ask(key: string)

  /** A thread calls, goes on by one step, or is cancelled; eh is what curl_easy_init would return. */
  datatype Move = Calls(t: Thread, call: Call) | Runs(t: Thread, eh: Handle) | Cancels(t: Thread)

  predicate HasMap(pc: Pc) {
    pc.GetFinds? || pc.GetFound? || pc.GetCreated? || pc.RetLooksUp? || pc.RetCleared? || pc.RetUnlocked? ||
    pc.AskFinds?
  }

  predicate HasSession(pc: Pc) {
    pc.GetLocked? || pc.GetCreated? || pc.Holds? || pc.RetWantsMap? || pc.RetLooksUp? || pc.RetCleared?
  }

  /** Threads that got the handle and have not given it up. */
  predicate HasHandle(pc: Pc) { pc.GetCreated? || pc.Holds? || pc.RetWantsMap? || pc.RetLooksUp? }

  function At(s: State, t: Thread, pc: Pc): State { s.(pcs := s.pcs[t := pc]) }

  function Put(s: State, key: string, u: CurlUsage): State { s.(handles := s.handles[key := u]) }

  /** The map lock, if it is free. */
  function LockMap(s: State, t: Thread, pc: Pc): State {
    if s.mapMutex == None then At(s, t, pc).(mapMutex := Some(t)) else s
  }

  function UnlockMap(s: State, t: Thread, pc: Pc): State { At(s, t, pc).(mapMutex := None) }

  function Go(s: State, t: Thread, eh: Handle): State
    requires t in s.pcs
  {
    match s.pcs[t]
    case Idle => s
    case GetWantsMap(key) => LockMap(s, t, GetFinds(key))
    case GetFinds(key) =>
      if key in s.handles then At(s, t, GetFound(key))
      else At(Put(s, key, CurlUsage(eh, true, Some(t))), t, GetCreated(key, eh))
    case GetFound(key) => UnlockMap(s, t, GetWaits(key))
    case GetWaits(key) =>
      if key in s.handles && s.handles[key].mutex == None then
        At(Put(s, key, s.handles[key].(mutex := Some(t))), t, GetLocked(key))
      else s
    case GetLocked(key) =>
      if key in s.handles then
        At(Put(s, key, s.handles[key].(inUse := true)), t, Holds(key, s.handles[key].eh))
      else s
    case GetCreated(key, h) => UnlockMap(s, t, Holds(key, h))
    case Holds(key, h) => s
    case RetWantsMap(key, h) => LockMap(s, t, RetLooksUp(key, h))
    case RetLooksUp(key, h) =>
      var u := if key in s.handles then s.handles[key] else CurlUsage(0, false, None);
      At(Put(s, key, u.(inUse := false)), t, RetCleared(key))
    case RetCleared(key) =>
      if key in s.handles then At(Put(s, key, s.handles[key].(mutex := None)), t, RetUnlocked(key)) else s
    case RetUnlocked(key) => UnlockMap(s, t, Idle)
    case AskWantsMap(key) => LockMap(s, t, AskFinds(key))
    case AskFinds(key) => UnlockMap(s, t, if key in s.handles then AskReads(key) else Idle)
    case AskReads(key) => At(s, t, Idle)
    case Gone => s
  }

  function Moved(s: State, m: Move): State {
    if m.t !in s.pcs then s
    else
      match m
      case Runs(t, eh) => Go(s, t, eh)
      case Cancels(t) => if s.pcs[t].GetWaits? then At(s, t, Gone) else s
      case Calls(t, call) =>
        match call
        case Get(key) => if s.pcs[t].Idle? then At(s, t, GetWantsMap(key)) else s
        case Ask(key) => if s.pcs[t].Idle? then At(s, t, AskWantsMap(key)) else s
        case Return => if s.pcs[t].Holds? then At(s, t, RetWantsMap(s.pcs[t].key, s.pcs[t].eh)) else s
  }

  function Run(s: State, ms: seq<Move>): State
    decreases |ms|
  {
    if ms == [] then s else Run(Moved(s, ms[0]), ms[1..])
  }

  ghost predicate Start(s: State) {
    s.mapMutex == None && s.handles == map[] && forall t :: t in s.pcs ==> s.pcs[t] == Idle
  }

  // ------------------------------------------------------------------ the invariant

  /** Map lock and program counters agree. */
  ghost predicate MapInv(s: State) {
    && (s.mapMutex.Some? ==> s.mapMutex.value in s.pcs && HasMap(s.pcs[s.mapMutex.value]))
    && (forall t :: t in s.pcs && HasMap(s.pcs[t]) ==> s.mapMutex == Some(t))
  }

  /** What a program counter says about the entry of its key. */
  ghost predicate PcInv(s: State, t: Thread)
    requires t in s.pcs
  {
    var pc := s.pcs[t];
    && (HasSession(pc) ==> pc.key in s.handles && s.handles[pc.key].mutex == Some(t))
    && (pc.GetFound? || pc.GetWaits? || pc.AskReads? ==> pc.key in s.handles)
    && (HasHandle(pc) ==> s.handles[pc.key].inUse && s.handles[pc.key].eh == pc.eh)
    && (pc.GetLocked? || pc.RetCleared? ==> !s.handles[pc.key].inUse)
  }

  /** A session lock is held by a thread that knows it; a free session is not in use. */
  ghost predicate EntryInv(s: State, key: string)
    requires key in s.handles
  {
    match s.handles[key].mutex
    case None => !s.handles[key].inUse
    case Some(t) => t in s.pcs && HasSession(s.pcs[t]) && s.pcs[t].key == key
  }

  ghost predicate Inv(s: State) {
    && MapInv(s)
    && (forall t :: t in s.pcs ==> PcInv(s, t))
    && (forall key :: key in s.handles ==> EntryInv(s, key))
  }

  lemma StartInv(s: State)
    requires Start(s)
    ensures Inv(s)
  {
  }

  lemma GoKeepsMap(s: State, t: Thread, eh: Handle)
    requires Inv(s) && t in s.pcs
    ensures MapInv(Go(s, t, eh))
  {
    hide EntryInv;
    assert PcInv(s, t);
  }

  /** The thread that moves. */
  lemma GoKeepsOwn(s: State, t: Thread, eh: Handle)
    requires Inv(s) && t in s.pcs
    ensures t in Go(s, t, eh).pcs && PcInv(Go(s, t, eh), t)
  {
    hide MapInv;
    assert PcInv(s, t);
    var pc := s.pcs[t];
    if pc.GetWaits? || pc.GetLocked? || pc.RetCleared? || pc.RetLooksUp? {
      assert EntryInv(s, pc.key);
    }
  }

  lemma GoKeepsOther(s: State, t: Thread, eh: Handle, u: Thread)
    requires Inv(s) && t in s.pcs && u in s.pcs && u != t
    ensures u in Go(s, t, eh).pcs && PcInv(Go(s, t, eh), u)
  {
    hide MapInv, EntryInv;
    assert PcInv(s, t) && PcInv(s, u);
  }

  /** A step changes only the entry of the mover's own key. */
  lemma GoKeepsEntry(s: State, t: Thread, eh: Handle, key: string)
    requires Inv(s) && t in s.pcs && key in Go(s, t, eh).handles
    ensures EntryInv(Go(s, t, eh), key)
  {
    hide MapInv;
    assert PcInv(s, t);
    if key in s.handles && Go(s, t, eh).handles[key] == s.handles[key] {
      EntryStays(s, t, eh, key);
    } else if key in s.handles {
      assert EntryInv(s, key);
    }
  }

  lemma EntryStays(s: State, t: Thread, eh: Handle, key: string)
    requires Inv(s) && t in s.pcs && key in s.handles
    requires key in Go(s, t, eh).handles && Go(s, t, eh).handles[key] == s.handles[key]
    ensures EntryInv(Go(s, t, eh), key)
  {
    hide MapInv;
    assert EntryInv(s, key) && PcInv(s, t);
    if s.handles[key].mutex.Some? {
      OwnerStays(s, t, eh, s.handles[key].mutex.value);
    }
  }

  /** A thread with a session keeps it, unless its own step unlocks it. */
  lemma OwnerStays(s: State, t: Thread, eh: Handle, u: Thread)
    requires t in s.pcs && u in s.pcs && HasSession(s.pcs[u]) && !(u == t && s.pcs[t].RetCleared?)
    ensures var e := Go(s, t, eh); u in e.pcs && HasSession(e.pcs[u]) && e.pcs[u].key == s.pcs[u].key
  {
  }

  lemma MovedKeepsInv(s: State, m: Move)
    requires Inv(s)
    ensures Inv(Moved(s, m))
  {
    if m.t in s.pcs && m.Runs? {
      var e := Go(s, m.t, m.eh);
      hide Go, PcInv, EntryInv, MapInv;
      GoKeepsMap(s, m.t, m.eh);
      GoKeepsOwn(s, m.t, m.eh);
      GoKeepsThreads(s, m.t, m.eh);
      forall u | u in e.pcs
        ensures PcInv(e, u)
      {
        if u != m.t { GoKeepsOther(s, m.t, m.eh, u); }
      }
      forall key | key in e.handles
        ensures EntryInv(e, key)
      {
        GoKeepsEntry(s, m.t, m.eh, key);
      }
    } else {
      OutsideKeepsInv(s, m);
    }
  }

  lemma GoKeepsThreads(s: State, t: Thread, eh: Handle)
    requires t in s.pcs
    ensures Go(s, t, eh).pcs.Keys == s.pcs.Keys
  {
  }

  /** A thread that keeps its locks and does not enter a section with duties of its own. */
  lemma SamePlace(s: State, t: Thread, pc: Pc)
    requires Inv(s) && t in s.pcs && !HasMap(s.pcs[t]) && !HasMap(pc)
    requires HasSession(pc) == HasSession(s.pcs[t]) == HasHandle(pc) == HasHandle(s.pcs[t])
    requires HasHandle(pc) ==> pc.key == s.pcs[t].key && pc.eh == s.pcs[t].eh
    requires !pc.GetFound? && !pc.GetWaits? && !pc.AskReads?
    ensures Inv(At(s, t, pc))
  {
    var e := At(s, t, pc);
    assert PcInv(s, t);
    forall u | u in e.pcs
      ensures PcInv(e, u)
    {
      if u != t { assert PcInv(s, u); }
    }
    forall key | key in e.handles
      ensures EntryInv(e, key)
    {
      assert EntryInv(s, key);
    }
  }

  /** Calls and cancellation touch no lock. */
  lemma OutsideKeepsInv(s: State, m: Move)
    requires Inv(s) && (m.t !in s.pcs || !m.Runs?)
    ensures Inv(Moved(s, m))
  {
    hide Go, Inv;
    var e := Moved(s, m);
    if e != s { SamePlace(s, m.t, e.pcs[m.t]); }
  }

  lemma {:induction false} RunKeepsInv(s: State, ms: seq<Move>)
    requires Inv(s)
    ensures Inv(Run(s, ms))
    decreases |ms|
  {
    hide Inv, Moved;
    if ms != [] {
      MovedKeepsInv(s, ms[0]);
      RunKeepsInv(Moved(s, ms[0]), ms[1..]);
    }
  }

  // ------------------------------------------------------------------ exclusion

  /** After every run: at most one thread has a key's handle; the assertion that a session just locked is not
      in use holds, and so does the one that a returned handle is the key's own. */
  lemma SessionExclusion(s: State, ms: seq<Move>, key: string, t: Thread, u: Thread)
    requires Start(s)
    requires var e := Run(s, ms); t in e.pcs && u in e.pcs
    ensures var e := Run(s, ms);
            && (HasSession(e.pcs[t]) && HasSession(e.pcs[u]) && e.pcs[t].key == e.pcs[u].key ==> t == u)
            && (HasHandle(e.pcs[t]) ==> e.pcs[t].key in e.handles && e.handles[e.pcs[t].key].eh == e.pcs[t].eh)
            && (e.pcs[t].GetLocked? ==> e.pcs[t].key in e.handles && !e.handles[e.pcs[t].key].inUse)
  {
    hide Run;
    StartInv(s);
    RunKeepsInv(s, ms);
    assert PcInv(Run(s, ms), t) && PcInv(Run(s, ms), u);
  }

  lemma MovedKeepsHandle(s: State, m: Move, key: string)
    requires Inv(s) && key in s.handles
    ensures key in Moved(s, m).handles && Moved(s, m).handles[key].eh == s.handles[key].eh
  {
    if m.t in s.pcs { assert PcInv(s, m.t); }
  }

  /** The handle of a key never changes. */
  lemma {:induction false} HandleConstant(s: State, ms: seq<Move>, key: string)
    requires Inv(s) && key in s.handles
    ensures key in Run(s, ms).handles && Run(s, ms).handles[key].eh == s.handles[key].eh
    decreases |ms|
  {
    hide Inv, Moved;
    if ms != [] {
      MovedKeepsInv(s, ms[0]);
      MovedKeepsHandle(s, ms[0], key);
      HandleConstant(Moved(s, ms[0]), ms[1..], key);
    }
  }

  // ------------------------------------------------------------------ nobody waits for good

  /** A thread with the map lock never waits for another lock: each of its steps changes its position. */
  lemma MapOwnerMoves(s: State, t: Thread, eh: Handle)
    requires Inv(s) && t in s.pcs && HasMap(s.pcs[t])
    ensures t in Go(s, t, eh).pcs && Go(s, t, eh).pcs[t] != s.pcs[t]
  {
    assert PcInv(s, t);
  }

  lemma {:induction false} RunConcat(s: State, a: seq<Move>, b: seq<Move>)
    ensures Run(s, a + b) == Run(Run(s, a), b)
    decreases |a|
  {
    hide Moved;
    if a == [] {
      assert a + b == b;
    } else {
      assert (a + b)[1..] == a[1..] + b;
      RunConcat(Moved(s, a[0]), a[1..], b);
    }
  }

  /** Steps a thread with the map lock still needs until it releases it. */
  function StepsLeft(pc: Pc): nat {
    match pc
    case GetFinds(_) => 2
    case GetFound(_) => 1
    case GetCreated(_, _) => 1
    case RetLooksUp(_, _) => 3
    case RetCleared(_) => 2
    case RetUnlocked(_) => 1
    case AskFinds(_) => 1
    case _ => 0
  }

  /** Positions a thread reaches when it only runs. */
  ghost predicate Others(s: State, e: State, t: Thread) {
    e.pcs.Keys == s.pcs.Keys && forall u :: u in s.pcs && u != t ==> e.pcs[u] == s.pcs[u]
  }

  lemma {:induction false} MapIsReleased(s: State, t: Thread) returns (ms: seq<Move>)
    requires Inv(s) && t in s.pcs && HasMap(s.pcs[t])
    ensures var e := Run(s, ms);
            && Inv(e) && e.mapMutex == None && Others(s, e, t)
            && (s.pcs[t].RetLooksUp? || s.pcs[t].RetCleared? || s.pcs[t].RetUnlocked? ==> e.pcs[t] == Idle)
            && (s.pcs[t].GetCreated? ==> e.pcs[t] == Holds(s.pcs[t].key, s.pcs[t].eh))
            && (forall key :: key in s.handles ==> key in e.handles)
    decreases StepsLeft(s.pcs[t])
  {
    hide Inv, MapInv, EntryInv;
    var m := Runs(t, 0);
    var s1 := Moved(s, m);
    MovedKeepsInv(s, m);
    assert PcInv(s, t) by { AtThread(s, t); }
    if StepsLeft(s.pcs[t]) == 1 {
      ms := [m];
      assert ms[1..] == [] && Run(s, ms) == Run(s1, []) == s1;
    } else {
      var rest := MapIsReleased(s1, t);
      ms := [m] + rest;
      assert ms[1..] == rest;
    }
  }

  lemma AtThread(s: State, t: Thread)
    requires Inv(s) && t in s.pcs
    ensures PcInv(s, t)
  {
  }

  /** With the map lock free, a holder returns in five steps of its own. */
  lemma ReturnsNow(s: State, t: Thread) returns (ms: seq<Move>)
    requires Inv(s) && s.mapMutex == None && t in s.pcs && (s.pcs[t].Holds? || s.pcs[t].RetWantsMap?)
    ensures var e := Run(s, ms);
            && Inv(e) && e.mapMutex == None && e.pcs.Keys == s.pcs.Keys && e.pcs[t] == Idle && Others(s, e, t)
            && (forall key :: key in s.handles ==> key in e.handles)
  {
    hide Inv, MapInv, EntryInv, PcInv;
    if s.pcs[t].Holds? {
      var m := Calls(t, Return);
      var s1 := Moved(s, m);
      MovedKeepsInv(s, m);
      var rest := ReturnsNow2(s1, t);
      ms := [m] + rest;
      assert ms[1..] == rest;
    } else {
      ms := ReturnsNow2(s, t);
    }
  }

  lemma ReturnsNow2(s: State, t: Thread) returns (ms: seq<Move>)
    requires Inv(s) && s.mapMutex == None && t in s.pcs && s.pcs[t].RetWantsMap?
    ensures var e := Run(s, ms);
            && Inv(e) && e.mapMutex == None && e.pcs.Keys == s.pcs.Keys && e.pcs[t] == Idle && Others(s, e, t)
            && (forall key :: key in s.handles ==> key in e.handles)
  {
    hide Inv, MapInv, EntryInv, PcInv;
    var m := Runs(t, 0);
    var s1 := Moved(s, m);
    MovedKeepsInv(s, m);
    var rest := MapIsReleased(s1, t);
    ms := [m] + rest;
    assert ms[1..] == rest;
  }

  /** The map lock can always be made free without disturbing a thread that does not have it. */
  lemma MapCanBeFree(s: State, t: Thread) returns (ms: seq<Move>)
    requires Inv(s) && t in s.pcs && !HasMap(s.pcs[t])
    ensures var e := Run(s, ms);
            && Inv(e) && e.mapMutex == None && e.pcs.Keys == s.pcs.Keys && e.pcs[t] == s.pcs[t]
            && (forall key :: key in s.handles ==> key in e.handles)
            && (forall u :: u in s.pcs && s.pcs[u].Holds? ==> e.pcs[u] == s.pcs[u])
  {
    hide PcInv, EntryInv;
    if s.mapMutex == None {
      ms := [];
    } else {
      ms := MapIsReleased(s, s.mapMutex.value);
    }
  }

  /** After every run, a thread that holds a handle can return it: some schedule brings it back to idle. */
  lemma HolderCanReturn(s: State, before: seq<Move>, t: Thread) returns (ms: seq<Move>)
    requires Start(s)
    requires var e := Run(s, before); t in e.pcs && e.pcs[t].Holds?
    ensures var e := Run(Run(s, before), ms); t in e.pcs && e.pcs[t] == Idle
  {
    hide Inv, Run;
    StartInv(s);
    RunKeepsInv(s, before);
    var e := Run(s, before);
    var free := MapCanBeFree(e, t);
    var back := ReturnsNow(Run(e, free), t);
    ms := free + back;
    RunConcat(e, free, back);
  }

  /** After every run, a thread that waits for a session can get it: whoever has the session can go on to
      return it, because nobody waits for a session with the map lock in hand. */
  lemma WaiterCanGet(s: State, before: seq<Move>, t: Thread) returns (ms: seq<Move>)
    requires Start(s)
    requires var e := Run(s, before); t in e.pcs && e.pcs[t].GetWaits?
    ensures var was := Run(s, before); var e := Run(was, ms);
            t in e.pcs && e.pcs[t].Holds? && e.pcs[t].key == was.pcs[t].key
  {
    hide Inv, Run, PcInv, EntryInv, MapInv;
    StartInv(s);
    RunKeepsInv(s, before);
    var e := Run(s, before);
    var free := SessionCanBeFree(e, t);
    var e1 := Run(e, free);
    var get := [Runs(t, 0), Runs(t, 0)];
    RunConcat(e, free, get);
    ms := free + get;
    TwoSteps(e1, get);
  }

  lemma TwoSteps(s: State, ms: seq<Move>)
    requires |ms| == 2
    ensures Run(s, ms) == Moved(Moved(s, ms[0]), ms[1])
  {
    hide Moved;
    assert ms[1..][0] == ms[1] && ms[1..][1..] == [];
    assert Run(s, ms) == Run(Moved(s, ms[0]), ms[1..]) == Run(Moved(Moved(s, ms[0]), ms[1]), ms[1..][1..]);
  }

  /** The session a thread waits for can be made free. */
  lemma SessionCanBeFree(s: State, t: Thread) returns (ms: seq<Move>)
    requires Inv(s) && t in s.pcs && s.pcs[t].GetWaits?
    ensures var e := Run(s, ms);
            && t in e.pcs && e.pcs[t] == s.pcs[t] && s.pcs[t].key in e.handles
            && e.handles[s.pcs[t].key].mutex == None
  {
    hide Inv, PcInv, EntryInv, MapInv;
    var key := s.pcs[t].key;
    var free := MapCanBeFree(s, t);
    var s1 := Run(s, free);
    KnownKey(s1, t);
    if s1.handles[key].mutex == None {
      ms := free;
    } else {
      var u := s1.handles[key].mutex.value;
      OwnerOutside(s1, key);
      var more := OwnerReturns(s1, u);
      RunConcat(s, free, more);
      ms := free + more;
      FreedSession(s1, Run(s, ms), u, key);
    }
  }

  /** The owner of a session goes on until it is idle. */
  lemma OwnerReturns(s: State, u: Thread) returns (ms: seq<Move>)
    requires Inv(s) && s.mapMutex == None && u in s.pcs
    requires s.pcs[u].GetLocked? || s.pcs[u].Holds? || s.pcs[u].RetWantsMap?
    ensures var e := Run(s, ms);
            && Inv(e) && Others(s, e, u) && e.pcs[u] == Idle
            && (forall key :: key in s.handles ==> key in e.handles)
  {
    hide Inv, PcInv, EntryInv, MapInv;
    if s.pcs[u].GetLocked? {
      var m := Runs(u, 0);
      MovedKeepsInv(s, m);
      AtThread(s, u);
      LockedHolds(s, u);
      var back := ReturnsNow(Moved(s, m), u);
      ms := [m] + back;
      assert ms[1..] == back;
    } else {
      ms := ReturnsNow(s, u);
    }
  }

  lemma LockedHolds(s: State, u: Thread)
    requires u in s.pcs && PcInv(s, u) && s.pcs[u].GetLocked?
    ensures var e := Moved(s, Runs(u, 0));
            && u in e.pcs && e.pcs[u].Holds? && e.mapMutex == s.mapMutex && Others(s, e, u)
            && (forall key :: key in s.handles ==> key in e.handles)
  {
  }

  lemma KnownKey(s: State, t: Thread)
    requires Inv(s) && t in s.pcs && s.pcs[t].GetWaits?
    ensures s.pcs[t].key in s.handles
  {
    assert PcInv(s, t);
  }

  /** With the map lock free, whoever has a session is not inside a critical section. */
  lemma OwnerOutside(s: State, key: string)
    requires Inv(s) && s.mapMutex == None && key in s.handles && s.handles[key].mutex.Some?
    ensures var u := s.handles[key].mutex.value;
            && u in s.pcs && (s.pcs[u].GetLocked? || s.pcs[u].Holds? || s.pcs[u].RetWantsMap?)
            && s.pcs[u].key == key
  {
    assert EntryInv(s, key);
  }

  /** If the thread that had the session is idle and no other thread moved, it is free. */
  lemma FreedSession(s: State, e: State, u: Thread, key: string)
    requires Inv(s) && Inv(e) && Others(s, e, u)
    requires key in s.handles && s.handles[key].mutex == Some(u) && key in e.handles
    requires u in e.pcs && e.pcs[u] == Idle
    ensures e.handles[key].mutex == None
  {
    hide MapInv;
    assert forall v :: v in s.pcs && v != u && HasSession(s.pcs[v]) ==> PcInv(s, v) && s.pcs[v].key != key;
    assert EntryInv(e, key);
  }

  /** After every run, an idle thread can get the session of any key. If the key is new when it looks, its handle
      is the one that curl_easy_init returns to it. */
  lemma IdleCanGet(s: State, before: seq<Move>, t: Thread, key: string, eh: Handle) returns (ms: seq<Move>)
    requires Start(s)
    requires var e := Run(s, before); t in e.pcs && e.pcs[t] == Idle
    ensures var was := Run(s, before); var e := Run(was, ms);
            && t in e.pcs && e.pcs[t].Holds? && e.pcs[t].key == key
            && (was.mapMutex == None && key !in was.handles ==> e.pcs[t].eh == eh)
  {
    hide Inv, Run, PcInv, EntryInv, MapInv;
    StartInv(s);
    RunKeepsInv(s, before);
    var e := Run(s, before);
    var free := MapFree(e, t);
    var e1 := Run(e, free);
    var ask := [Calls(t, Get(key)), Runs(t, 0)];
    TwoSteps(e1, ask);
    AsksMap(e1, t, key);
    var find := [Runs(t, eh), Runs(t, 0)];
    var e2 := Run(e1, ask);
    TwoSteps(e2, find);
    FindsOrCreates(e2, t, key, eh);
    RunConcat(e1, ask, find);
    RunConcat(e, free, ask + find);
    ms := free + (ask + find);
    if key in e2.handles {
      RunConcat(s, before, ms);
      var rest := WaiterCanGet(s, before + ms, t);
      RunConcat(e, ms, rest);
      ms := ms + rest;
    }
  }

  /** Nothing moves if the map lock is free already. */
  lemma MapFree(s: State, t: Thread) returns (ms: seq<Move>)
    requires Inv(s) && t in s.pcs && s.pcs[t] == Idle
    ensures var e := Run(s, ms); Inv(e) && e.mapMutex == None && t in e.pcs && e.pcs[t] == Idle
    ensures s.mapMutex == None ==> Run(s, ms) == s
  {
    if s.mapMutex == None {
      ms := [];
    } else {
      ms := MapCanBeFree(s, t);
    }
  }

  lemma AsksMap(s: State, t: Thread, key: string)
    requires s.mapMutex == None && t in s.pcs && s.pcs[t] == Idle
    ensures var e := Moved(Moved(s, Calls(t, Get(key))), Runs(t, 0));
            e.mapMutex == Some(t) && t in e.pcs && e.pcs[t] == GetFinds(key) && e.handles == s.handles
  {
  }

  lemma FindsOrCreates(s: State, t: Thread, key: string, eh: Handle)
    requires t in s.pcs && s.pcs[t] == GetFinds(key)
    ensures var e := Moved(Moved(s, Runs(t, eh)), Runs(t, 0));
            t in e.pcs && e.pcs[t] == if key in s.handles then GetWaits(key) else Holds(key, eh)
  {
  }

  /** A thread that waits can be cancelled. After every run a cancelled thread has no lock. */
  lemma CancelledHasNothing(s: State, ms: seq<Move>, t: Thread)
    requires Start(s) && t in Run(s, ms).pcs
    ensures var e := Run(s, ms);
            && (e.pcs[t].GetWaits? ==> t in Moved(e, Cancels(t)).pcs && Moved(e, Cancels(t)).pcs[t] == Gone)
            && (e.pcs[t] == Gone ==>
                  e.mapMutex != Some(t) && forall key :: key in e.handles ==> e.handles[key].mutex != Some(t))
  {
    hide Run, Go;
    StartInv(s);
    RunKeepsInv(s, ms);
    var e := Run(s, ms);
    assert forall key :: key in e.handles ==> EntryInv(e, key);
  }

  /** inUse: with the map lock in hand a thread is done in one step if the key is unknown, and else in two, of
      which the second reads the entry without the lock; it changes nothing but its own place. */
  lemma AskerIsDone(s: State, t: Thread, key: string)
    requires t in s.pcs && s.pcs[t] == AskFinds(key)
    ensures var e := Moved(s, Runs(t, 0));
            && e.mapMutex == None && e.handles == s.handles && Others(s, e, t)
            && e.pcs[t] == (if key in s.handles then AskReads(key) else Idle)
            && (key in s.handles ==>
                  var f := Moved(e, Runs(t, 0));
                  f.pcs[t] == Idle && f.handles == s.handles && f.mapMutex == None && Others(s, f, t))
  {
  }

  /** After every run an idle thread can call inUse, gets to look the key up, and is done. */
  lemma IdleCanAsk(s: State, before: seq<Move>, t: Thread, key: string) returns (ms: seq<Move>, more: seq<Move>)
    requires Start(s)
    requires var e := Run(s, before); t in e.pcs && e.pcs[t] == Idle
    ensures var e := Run(Run(s, before), ms);
            && t in e.pcs && e.pcs[t] == AskFinds(key)
            && var f := Run(e, more); t in f.pcs && f.pcs[t] == Idle
  {
    hide Inv, Run, PcInv, EntryInv, MapInv;
    StartInv(s);
    RunKeepsInv(s, before);
    var e := Run(s, before);
    var free := MapFree(e, t);
    var ask := [Calls(t, Ask(key)), Runs(t, 0)];
    TwoSteps(Run(e, free), ask);
    RunConcat(e, free, ask);
    ms := free + ask;
    more := [Runs(t, 0), Runs(t, 0)];
    TwoSteps(Run(e, ms), more);
    AskerIsDone(Run(e, ms), t, key);
  }

  // ------------------------------------------------------------------ the class

  /** The provider with its threads; each method is the part of get_easy_session, return_session or inUse
      between two lock operations. The asserts are those of the source. */
  class CurlSessionProvider {
    var mapMutex: Option<Thread>
    var easyHandleMap: map<string, CurlUsage>
    var pcs: map<Thread, Pc>

    ghost function View(): State
      reads this
    {
      State(mapMutex, easyHandleMap, pcs)
    }

    constructor (threads: set<Thread>)
      ensures Start(View()) && pcs.Keys == threads
    {
      mapMutex, easyHandleMap := None, map[];
      pcs := map t | t in threads :: Idle;
    }

    method LockMap(t: Thread) returns (ok: bool)
      requires t in pcs && (pcs[t].GetWantsMap? || pcs[t].RetWantsMap? || pcs[t].AskWantsMap?)
      modifies this
      ensures View() == Go(old(View()), t, 0) && ok == (old(mapMutex) == None)
    {
      ok := mapMutex == None;
      if ok {
        mapMutex := Some(t);
        match pcs[t] {
          case GetWantsMap(key) => pcs := pcs[t := GetFinds(key)];
          case RetWantsMap(key, eh) => pcs := pcs[t := RetLooksUp(key, eh)];
          case AskWantsMap(key) => pcs := pcs[t := AskFinds(key)];
        }
      }
    }

    /** find, or a new entry with its session locked. */
    method FindOrCreate(t: Thread, eh: Handle)
      requires t in pcs && pcs[t].GetFinds?
      modifies this
      ensures View() == Go(old(View()), t, eh)
    {
      var key := pcs[t].key;
      if key in easyHandleMap {
        pcs := pcs[t := GetFound(key)];
      } else {
        easyHandleMap := easyHandleMap[key := CurlUsage(eh, true, Some(t))];
        pcs := pcs[t := GetCreated(key, eh)];
      }
    }

    method UnlockMap(t: Thread)
      requires t in pcs && (pcs[t].GetFound? || pcs[t].GetCreated? || pcs[t].RetUnlocked?)
      modifies this
      ensures View() == Go(old(View()), t, 0)
    {
      match pcs[t] {
        case GetFound(key) => pcs := pcs[t := GetWaits(key)];
        case GetCreated(key, eh) => pcs := pcs[t := Holds(key, eh)];
        case RetUnlocked(key) => pcs := pcs[t := Idle];
      }
      mapMutex := None;
    }

    /** One turn of the loop around pthread_mutex_timedlock. */
    method TryLockSession(t: Thread) returns (locked: bool)
      requires Inv(View()) && t in pcs && pcs[t].GetWaits?
      modifies this
      ensures View() == Go(old(View()), t, 0) && locked == pcs[t].GetLocked?
    {
      AtThread(View(), t);
      var key := pcs[t].key;
      var cur := easyHandleMap[key];
      locked := cur.mutex == None;
      if locked {
        easyHandleMap := easyHandleMap[key := cur.(mutex := Some(t))];
        pcs := pcs[t := GetLocked(key)];
      }
    }

    method TakeHandle(t: Thread) returns (toRet: Handle)
      requires Inv(View()) && t in pcs && pcs[t].GetLocked?
      modifies this
      ensures View() == Go(old(View()), t, 0) && pcs[t] == Holds(old(pcs[t].key), toRet)
    {
      AtThread(View(), t);
      var key := pcs[t].key;
      var cur := easyHandleMap[key];
      assert !cur.inUse;
      easyHandleMap := easyHandleMap[key := cur.(inUse := true)];
      toRet := cur.eh;
      pcs := pcs[t := Holds(key, toRet)];
    }

    /** The handle is given back: looked up, compared, cleared. */
    method ClearInUse(t: Thread)
      requires Inv(View()) && t in pcs && pcs[t].RetLooksUp?
      modifies this
      ensures View() == Go(old(View()), t, 0)
    {
      AtThread(View(), t);
      var key, eh := pcs[t].key, pcs[t].eh;
      var cu := easyHandleMap[key];
      assert eh == cu.eh;
      easyHandleMap := easyHandleMap[key := cu.(inUse := false)];
      pcs := pcs[t := RetCleared(key)];
    }

    method UnlockSession(t: Thread)
      requires Inv(View()) && t in pcs && pcs[t].RetCleared?
      modifies this
      ensures View() == Go(old(View()), t, 0)
    {
      AtThread(View(), t);
      var key := pcs[t].key;
      easyHandleMap := easyHandleMap[key := easyHandleMap[key].(mutex := None)];
      pcs := pcs[t := RetUnlocked(key)];
    }

    /** inUse looks the key up and releases the map before it reads the entry. */
    method FindInUse(t: Thread) returns (found: bool)
      requires t in pcs && pcs[t].AskFinds?
      modifies this
      ensures View() == Go(old(View()), t, 0) && found == pcs[t].AskReads?
    {
      var key := pcs[t].key;
      found := key in easyHandleMap;
      mapMutex := None;
      pcs := pcs[t := if found then AskReads(key) else Idle];
    }

    /** The entry is still there, whatever other threads did meanwhile. */
    method ReadInUse(t: Thread) returns (inUse: bool)
      requires Inv(View()) && t in pcs && pcs[t].AskReads?
      modifies this
      ensures View() == Go(old(View()), t, 0)
      ensures old(pcs[t].key) in easyHandleMap && inUse == easyHandleMap[old(pcs[t].key)].inUse
    {
      AtThread(View(), t);
      inUse := easyHandleMap[pcs[t].key].inUse;
      pcs := pcs[t := Idle];
    }
  }
}
