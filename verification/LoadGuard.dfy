/**
 * The guard in front of the authoritative load (cache.go): one flight per key, a semaphore over all
 * flights, and callers that share a flight's result, under every interleaving of the callers' steps.
 */
module LoadGuard {
  type Key = string

  /** What a flight ends with. `load` numbers the loads in the order in which they started. */
  datatype Result = Value(key: Key, load: nat) | LoadFailed(key: Key, load: nat) | Exhausted

  /** A caller that runs its flight: waiting for a slot, loading, done with the slot still held, done, published. */
  datatype Stage = Wanting | Loading(load: nat) | Holding(result: Result) | Ready(result: Result) | Published(result: Result)

  datatype Caller = Leading(key: Key, call: nat, stage: Stage) | Waiting(key: Key, call: nat) | Returned(key: Key, call: nat, result: Result)

  /**
   * `calls` is the flight table, `results` the published results. The rest are history variables: the key of
   * every flight and of every load ever started, how each load ended, and the flights that gave up waiting.
   */
  datatype Guard = Guard(limit: nat, slots: nat, calls: map<Key, nat>, results: map<nat, Result>, callers: map<nat, Caller>,
                         keys: seq<Key>, loads: seq<Key>, ends: map<nat, bool>, gaveUp: set<nat>)

  function Start(limit: nat): Guard {
    Guard(limit, 0, map[], map[], map[], [], [], map[], {})
  }

  datatype Op =
    | Enter(caller: nat, key: Key)
    | TakeSlot(caller: nat)
    | GiveUp(caller: nat)
    | EndLoad(caller: nat, ok: bool)
    | ReturnSlot(caller: nat)
    | Publish(caller: nat)
    | Leave(caller: nat)
    | Wake(caller: nat)

  function With(s: Guard, g: nat, c: Caller): Guard {
    s.(callers := s.callers[g := c])
  }

  function Enters(s: Guard, g: nat, key: Key): Guard {
    if g in s.callers && !s.callers[g].Returned? then s
    else if key in s.calls then With(s, g, Waiting(key, s.calls[key]))
    else With(s.(calls := s.calls[key := |s.keys|], keys := s.keys + [key]), g, Leading(key, |s.keys|, Wanting))
  }

  function Leads(s: Guard, g: nat, c: Caller, op: Op): Guard
    requires c.Leading?
  {
    match (op, c.stage)
    case (TakeSlot(_), Wanting) =>
      if s.slots < s.limit
      then With(s.(slots := s.slots + 1, loads := s.loads + [c.key]), g, c.(stage := Loading(|s.loads|)))
      else s
    case (GiveUp(_), Wanting) => With(s.(gaveUp := s.gaveUp + {c.call}), g, c.(stage := Ready(Exhausted)))
    case (EndLoad(_, ok), Loading(load)) =>
      With(s.(ends := s.ends[load := ok]), g, c.(stage := Holding(if ok then Value(c.key, load) else LoadFailed(c.key, load))))
    case (ReturnSlot(_), Holding(r)) =>
      With(s.(slots := if s.slots > 0 then s.slots - 1 else 0), g, c.(stage := Ready(r)))
    case (Publish(_), Ready(r)) => With(s.(results := s.results[c.call := r]), g, c.(stage := Published(r)))
    case (Leave(_), Published(r)) => With(s.(calls := s.calls - {c.key}), g, Returned(c.key, c.call, r))
    case _ => s
  }

  function Do(s: Guard, op: Op): Guard {
    var g := op.caller;
    if op.Enter? then Enters(s, g, op.key)
    else if g !in s.callers then s
    else match s.callers[g] {
      case Leading(_, _, _) => Leads(s, g, s.callers[g], op)
      case Waiting(key, call) => if op.Wake? && call in s.results then With(s, g, Returned(key, call, s.results[call])) else s
      case Returned(_, _, _) => s
    }
  }

  function Run(s: Guard, ops: seq<Op>): Guard {
    if ops == [] then s else Do(Run(s, ops[..|ops| - 1]), ops[|ops| - 1])
  }

  // ---- the invariant ----

  /** What the flight really came to: the end of a load of its key, or a leader that gave up. */
  ghost predicate Genuine(s: Guard, key: Key, call: nat, r: Result) {
    match r
    case Value(k, load) => k == key && load < |s.loads| && s.loads[load] == key && load in s.ends && s.ends[load]
    case LoadFailed(k, load) => k == key && load < |s.loads| && s.loads[load] == key && load in s.ends && !s.ends[load]
    case Exhausted => call in s.gaveUp
  }

  ghost predicate CallerSound(s: Guard, c: Caller) {
    match c
    case Leading(key, call, stage) =>
      call < |s.keys| && s.keys[call] == key && key in s.calls && s.calls[key] == call
      && (!stage.Published? ==> call !in s.results)
      && (match stage
          case Wanting => true
          case Loading(load) => load < |s.loads| && s.loads[load] == key && load !in s.ends
          case Holding(r) => Genuine(s, key, call, r)
          case Ready(r) => Genuine(s, key, call, r)
          case Published(r) => call in s.results && s.results[call] == r)
    case Waiting(key, call) => call < |s.keys| && s.keys[call] == key
    case Returned(key, call, r) => call < |s.keys| && s.keys[call] == key && call in s.results && s.results[call] == r
  }

  predicate HoldsSlot(c: Caller) {
    c.Leading? && (c.stage.Loading? || c.stage.Holding?)
  }

  /** Callers that hold a slot. */
  function Holders(callers: map<nat, Caller>): set<nat> {
    set g | g in callers && HoldsSlot(callers[g])
  }

  ghost predicate CallersSound(s: Guard) {
    forall g :: g in s.callers ==> CallerSound(s, s.callers[g])
  }

  /** A flight has one leader, and a load one caller. */
  ghost predicate LeadersApart(callers: map<nat, Caller>) {
    forall g, h :: g in callers && h in callers && g != h && callers[g].Leading? && callers[h].Leading? ==>
      callers[g].call != callers[h].call
      && (callers[g].stage.Loading? && callers[h].stage.Loading? ==> callers[g].stage.load != callers[h].stage.load)
  }

  ghost predicate FlightsSound(s: Guard) {
    (forall key :: key in s.calls ==> s.calls[key] < |s.keys| && s.keys[s.calls[key]] == key)
    && (forall call :: call in s.results ==> call < |s.keys| && Genuine(s, s.keys[call], call, s.results[call]))
    && (forall load :: load in s.ends ==> load < |s.loads|)
  }

  ghost predicate SlotsSound(s: Guard) {
    s.slots == |Holders(s.callers)| && s.slots <= s.limit
  }

  ghost predicate Sound(s: Guard) {
    CallersSound(s) && LeadersApart(s.callers) && FlightsSound(s) && SlotsSound(s)
  }

  lemma HoldersAfter(callers: map<nat, Caller>, g: nat, c: Caller)
    ensures Holders(callers[g := c]) == if HoldsSlot(c) then Holders(callers) + {g} else Holders(callers) - {g}
  {}

  lemma HoldersUpdate(callers: map<nat, Caller>, g: nat, c: Caller)
    ensures |Holders(callers[g := c])|
         == |Holders(callers)| + (if HoldsSlot(c) then 1 else 0) - if g in callers && HoldsSlot(callers[g]) then 1 else 0
  {
    HoldersAfter(callers, g, c);
    assert g in Holders(callers) <==> g in callers && HoldsSlot(callers[g]);
  }

  /** The history goes on: nothing recorded is taken back. */
  ghost predicate GoesOn(s: Guard, t: Guard) {
    s.keys <= t.keys && s.loads <= t.loads && s.gaveUp <= t.gaveUp
    && (forall load :: load in s.ends ==> load in t.ends && t.ends[load] == s.ends[load])
    && (forall call :: call in s.results ==> call in t.results && t.results[call] == s.results[call])
  }

  lemma CallerStays(s: Guard, t: Guard, c: Caller)
    requires CallerSound(s, c) && GoesOn(s, t)
    requires c.Leading? ==> c.key in t.calls && t.calls[c.key] == c.call && (c.call !in s.results ==> c.call !in t.results)
    requires c.Leading? && c.stage.Loading? ==> c.stage.load !in t.ends
    ensures CallerSound(t, c)
  {}

  lemma OthersStay(s: Guard, t: Guard, g: nat)
    requires CallersSound(s) && LeadersApart(s.callers) && GoesOn(s, t)
    requires g in t.callers && t.callers == s.callers[g := t.callers[g]] && CallerSound(t, t.callers[g])
    requires forall key :: key in s.calls && !(g in s.callers && s.callers[g].Leading? && s.callers[g].key == key) ==>
               key in t.calls && t.calls[key] == s.calls[key]
    requires forall call :: call in t.results && call !in s.results ==> g in s.callers && s.callers[g].Leading? && s.callers[g].call == call
    requires forall load :: load in t.ends && load !in s.ends ==>
               g in s.callers && s.callers[g].Leading? && s.callers[g].stage.Loading? && s.callers[g].stage.load == load
    ensures CallersSound(t)
  {
    forall h | h in t.callers ensures CallerSound(t, t.callers[h]) {
      if h != g {
        assert CallerSound(s, s.callers[h]);
        if g in s.callers { assert CallerSound(s, s.callers[g]); }
        CallerStays(s, t, s.callers[h]);
      }
    }
  }

  lemma JoinKeepsCallers(s: Guard, g: nat, key: Key)
    requires CallersSound(s) && LeadersApart(s.callers) && FlightsSound(s) && !(g in s.callers && !s.callers[g].Returned?) && key in s.calls
    ensures CallersSound(Enters(s, g, key)) && LeadersApart(Enters(s, g, key).callers)
  {
    OthersStay(s, Enters(s, g, key), g);
  }

  lemma EnterKeepsSlots(s: Guard, g: nat, key: Key)
    requires SlotsSound(s)
    ensures SlotsSound(Enters(s, g, key))
  {
    var t := Enters(s, g, key);
    if t != s { HoldersUpdate(s.callers, g, t.callers[g]); }
  }

  lemma EnterKeepsFlights(s: Guard, g: nat, key: Key)
    requires FlightsSound(s)
    ensures FlightsSound(Enters(s, g, key))
  {}

  lemma LeadersBelow(s: Guard, h: nat)
    requires CallersSound(s) && h in s.callers && s.callers[h].Leading?
    ensures s.callers[h].call < |s.keys|
  {
    assert CallerSound(s, s.callers[h]);
  }

  lemma OpenKeepsCallers(s: Guard, g: nat, key: Key)
    requires CallersSound(s) && LeadersApart(s.callers) && FlightsSound(s) && !(g in s.callers && !s.callers[g].Returned?) && key !in s.calls
    ensures CallersSound(Enters(s, g, key))
  {
    var t := Enters(s, g, key);
    assert CallerSound(t, t.callers[g]);
    OthersStay(s, t, g);
  }

  lemma OpenKeepsLeaders(s: Guard, g: nat, key: Key)
    requires CallersSound(s) && LeadersApart(s.callers) && !(g in s.callers && !s.callers[g].Returned?) && key !in s.calls
    ensures LeadersApart(Enters(s, g, key).callers)
  {
    forall h | h in s.callers && s.callers[h].Leading? ensures s.callers[h].call < |s.keys| { LeadersBelow(s, h); }
  }

  lemma EnterKeeps(s: Guard, g: nat, key: Key)
    requires Sound(s)
    ensures Sound(Enters(s, g, key))
  {
    EnterKeepsSlots(s, g, key);
    EnterKeepsFlights(s, g, key);
    if !(g in s.callers && !s.callers[g].Returned?) {
      if key in s.calls {
        JoinKeepsCallers(s, g, key);
      } else {
        OpenKeepsCallers(s, g, key);
        OpenKeepsLeaders(s, g, key);
      }
    }
  }

  lemma LeadKeepsCallers(s: Guard, g: nat, op: Op)
    requires CallersSound(s) && LeadersApart(s.callers) && FlightsSound(s) && g in s.callers && s.callers[g].Leading?
    ensures CallersSound(Leads(s, g, s.callers[g], op))
  {
    var t := Leads(s, g, s.callers[g], op);
    assert CallerSound(s, s.callers[g]);
    if t != s {
      LeadGoesOn(s, g, op);
      LeaderStays(s, g, op);
      OthersStay(s, t, g);
    }
  }

  lemma LeaderStays(s: Guard, g: nat, op: Op)
    requires FlightsSound(s) && g in s.callers && s.callers[g].Leading? && CallerSound(s, s.callers[g])
    ensures var t := Leads(s, g, s.callers[g], op); g in t.callers && CallerSound(t, t.callers[g])
  {}

  lemma LeadKeepsLeaders(s: Guard, g: nat, op: Op)
    requires CallersSound(s) && LeadersApart(s.callers) && g in s.callers && s.callers[g].Leading?
    ensures LeadersApart(Leads(s, g, s.callers[g], op).callers)
  {
    forall h | h in s.callers && s.callers[h].Leading? ensures s.callers[h].stage.Loading? ==> s.callers[h].stage.load < |s.loads| {
      assert CallerSound(s, s.callers[h]);
    }
  }

  lemma LeadGoesOn(s: Guard, g: nat, op: Op)
    requires g in s.callers && s.callers[g].Leading? && CallerSound(s, s.callers[g]) && FlightsSound(s)
    ensures GoesOn(s, Leads(s, g, s.callers[g], op))
  {}

  lemma LeadKeepsSlots(s: Guard, g: nat, op: Op)
    requires SlotsSound(s) && g in s.callers && s.callers[g].Leading?
    ensures SlotsSound(Leads(s, g, s.callers[g], op))
  {
    var t := Leads(s, g, s.callers[g], op);
    if t != s {
      HoldersUpdate(s.callers, g, t.callers[g]);
      if HoldsSlot(s.callers[g]) { assert g in Holders(s.callers); }
    }
  }

  lemma LeadKeepsFlights(s: Guard, g: nat, op: Op)
    requires CallersSound(s) && FlightsSound(s) && g in s.callers && s.callers[g].Leading?
    ensures FlightsSound(Leads(s, g, s.callers[g], op))
  {
    assert CallerSound(s, s.callers[g]);
  }

  lemma LeadKeeps(s: Guard, g: nat, op: Op)
    requires Sound(s) && g in s.callers && s.callers[g].Leading?
    ensures Sound(Leads(s, g, s.callers[g], op)) && Leads(s, g, s.callers[g], op).limit == s.limit
  {
    LeadKeepsCallers(s, g, op);
    LeadKeepsLeaders(s, g, op);
    LeadKeepsSlots(s, g, op);
    LeadKeepsFlights(s, g, op);
  }

  lemma WakeKeepsCallers(s: Guard, g: nat)
    requires CallersSound(s) && LeadersApart(s.callers) && g in s.callers && s.callers[g].Waiting?
    ensures CallersSound(Do(s, Wake(g))) && LeadersApart(Do(s, Wake(g)).callers)
  {
    var t := Do(s, Wake(g));
    assert CallerSound(s, s.callers[g]);
    if t != s { OthersStay(s, t, g); }
  }

  lemma WakeKeeps(s: Guard, g: nat)
    requires Sound(s) && g in s.callers && s.callers[g].Waiting?
    ensures Sound(Do(s, Wake(g)))
  {
    var t := Do(s, Wake(g));
    WakeKeepsCallers(s, g);
    if t != s { HoldersUpdate(s.callers, g, t.callers[g]); }
  }

  lemma DoKeeps(s: Guard, op: Op)
    requires Sound(s)
    ensures Sound(Do(s, op)) && Do(s, op).limit == s.limit
  {
    var g := op.caller;
    if op.Enter? {
      EnterKeeps(s, g, op.key);
    } else if g in s.callers && s.callers[g].Leading? {
      LeadKeeps(s, g, op);
    } else if g in s.callers && s.callers[g].Waiting? && op.Wake? {
      WakeKeeps(s, g);
    }
  }

  lemma {:induction false} Reachable(limit: nat, ops: seq<Op>)
    ensures Sound(Run(Start(limit), ops)) && Run(Start(limit), ops).limit == limit
  {
    if ops == [] {
      assert Holders(Start(limit).callers) == {};
    } else {
      Reachable(limit, ops[..|ops| - 1]);
      DoKeeps(Run(Start(limit), ops[..|ops| - 1]), ops[|ops| - 1]);
    }
  }

  // ---- the results ----

  predicate Running(s: Guard, g: nat) {
    g in s.callers && s.callers[g].Leading? && s.callers[g].stage.Loading?
  }

  /** At most one load of a key is running. */
  lemma OneLoadPerKey(limit: nat, ops: seq<Op>, g: nat, h: nat)
    requires var s := Run(Start(limit), ops); Running(s, g) && Running(s, h) && s.callers[g].key == s.callers[h].key
    ensures g == h
  {
    Reachable(limit, ops);
    var s := Run(Start(limit), ops);
    assert CallerSound(s, s.callers[g]) && CallerSound(s, s.callers[h]);
  }

  /** At most `limit` loads are running, and the taken slots are exactly those of callers that hold one. */
  lemma LoadsBounded(limit: nat, ops: seq<Op>)
    ensures var s := Run(Start(limit), ops);
            |set g | g in s.callers && Running(s, g)| <= limit && s.slots == |Holders(s.callers)|
  {
    Reachable(limit, ops);
    var s := Run(Start(limit), ops);
    var running := set g | g in s.callers && Running(s, g);
    assert running <= Holders(s.callers);
    SubsetSize(running, Holders(s.callers));
  }

  lemma {:induction false} SubsetSize(a: set<nat>, b: set<nat>)
    requires a <= b
    ensures |a| <= |b|
    decreases a
  {
    if a != {} {
      var x :| x in a;
      SubsetSize(a - {x}, b - {x});
    }
  }

  /** When nobody is inside the guard every slot has been returned. */
  lemma SlotsReturned(limit: nat, ops: seq<Op>)
    requires var s := Run(Start(limit), ops); forall g :: g in s.callers ==> s.callers[g].Returned?
    ensures Run(Start(limit), ops).slots == 0
  {
    Reachable(limit, ops);
    assert Holders(Run(Start(limit), ops).callers) == {};
  }

  /**
   * Every caller that falls back gets what the flight it joined came to: a value if and only if that load of its own
   * key ended well, the load's error if it did not, and an exhausted guard only if the flight's leader gave up.
   */
  lemma OwnResult(limit: nat, ops: seq<Op>, g: nat)
    requires var s := Run(Start(limit), ops); g in s.callers && s.callers[g].Returned?
    ensures var s := Run(Start(limit), ops);
            var c := s.callers[g];
            c.call < |s.keys| && s.keys[c.call] == c.key && c.call in s.results && s.results[c.call] == c.result
            && Genuine(s, c.key, c.call, c.result)
  {
    Reachable(limit, ops);
    var s := Run(Start(limit), ops);
    assert CallerSound(s, s.callers[g]);
  }

  /** The operation ends the load of this number. */
  predicate EndsLoad(s: Guard, op: Op, load: nat, ok: bool) {
    op == EndLoad(op.caller, ok) && op.caller in s.callers && s.callers[op.caller].Leading? && s.callers[op.caller].stage == Loading(load)
  }

  /** The record of a load's end is the record of the loader's own answer. */
  lemma {:induction false} EndRecorded(limit: nat, ops: seq<Op>, load: nat) returns (i: nat)
    requires load in Run(Start(limit), ops).ends
    ensures i < |ops| && EndsLoad(Run(Start(limit), ops[..i]), ops[i], load, Run(Start(limit), ops).ends[load])
  {
    var n := |ops| - 1;
    var s, op := Run(Start(limit), ops[..n]), ops[n];
    Reachable(limit, ops[..n]);
    if load in s.ends {
      i := EndRecorded(limit, ops[..n], load);
      assert ops[..n][..i] == ops[..i];
      EndStays(s, op, load);
    } else {
      i := n;
    }
  }

  lemma EndStays(s: Guard, op: Op, load: nat)
    requires Sound(s) && load in s.ends
    ensures load in Do(s, op).ends && Do(s, op).ends[load] == s.ends[load]
  {
    if op.caller in s.callers && s.callers[op.caller].Leading? { assert CallerSound(s, s.callers[op.caller]); }
  }

  // ---- nobody is stuck ----

  /** A waiting caller's flight has been published or still has its leader. */
  ghost predicate FlightGoesOn(s: Guard, call: nat) {
    call in s.results || exists h :: h in s.callers && s.callers[h].Leading? && s.callers[h].call == call
  }

  ghost predicate NoOrphans(s: Guard) {
    (forall g :: g in s.callers && s.callers[g].Waiting? ==> FlightGoesOn(s, s.callers[g].call))
    && (forall key :: key in s.calls ==> FlightGoesOn(s, s.calls[key]))
  }

  lemma FlightStays(s: Guard, op: Op, call: nat)
    requires CallersSound(s) && FlightsSound(s) && FlightGoesOn(s, call)
    ensures FlightGoesOn(Do(s, op), call)
  {
    if call in s.results {
      ResultStays(s, op, call);
    } else {
      var h :| h in s.callers && s.callers[h].Leading? && s.callers[h].call == call;
      assert CallerSound(s, s.callers[h]);
      LeaderOrResult(s, op, h);
    }
  }

  lemma ResultStays(s: Guard, op: Op, call: nat)
    requires call in s.results
    ensures call in Do(s, op).results
  {}

  lemma LeaderOrResult(s: Guard, op: Op, h: nat)
    requires h in s.callers && s.callers[h].Leading? && CallerSound(s, s.callers[h])
    ensures var t, call := Do(s, op), s.callers[h].call;
            call in t.results || (h in t.callers && t.callers[h].Leading? && t.callers[h].call == call)
  {}

  lemma WaitingGoesOn(s: Guard, op: Op, g: nat)
    requires CallersSound(s) && FlightsSound(s) && NoOrphans(s) && g in Do(s, op).callers && Do(s, op).callers[g].Waiting?
    ensures FlightGoesOn(Do(s, op), Do(s, op).callers[g].call)
  {
    var call := Do(s, op).callers[g].call;
    assert FlightGoesOn(s, call) by {
      if g !in s.callers || !s.callers[g].Waiting? { assert op.Enter? && op.key in s.calls && s.calls[op.key] == call; }
    }
    FlightStays(s, op, call);
  }

  lemma CallGoesOn(s: Guard, op: Op, key: Key)
    requires CallersSound(s) && FlightsSound(s) && NoOrphans(s) && key in Do(s, op).calls
    ensures FlightGoesOn(Do(s, op), Do(s, op).calls[key])
  {
    var t := Do(s, op);
    if key in s.calls && s.calls[key] == t.calls[key] {
      FlightStays(s, op, s.calls[key]);
    } else {
      assert op.Enter? && t.callers[op.caller] == Leading(key, t.calls[key], Wanting);
    }
  }

  lemma DoKeepsFlights(s: Guard, op: Op)
    requires Sound(s) && NoOrphans(s)
    ensures NoOrphans(Do(s, op))
  {
    var t := Do(s, op);
    forall g | g in t.callers && t.callers[g].Waiting? ensures FlightGoesOn(t, t.callers[g].call) { WaitingGoesOn(s, op, g); }
    forall key | key in t.calls ensures FlightGoesOn(t, t.calls[key]) { CallGoesOn(s, op, key); }
  }

  lemma {:induction false} NeverOrphaned(limit: nat, ops: seq<Op>)
    ensures NoOrphans(Run(Start(limit), ops))
  {
    if ops != [] {
      NeverOrphaned(limit, ops[..|ops| - 1]);
      Reachable(limit, ops[..|ops| - 1]);
      DoKeepsFlights(Run(Start(limit), ops[..|ops| - 1]), ops[|ops| - 1]);
    }
  }

  lemma RunMore(s: Guard, ops: seq<Op>, op: Op)
    ensures Run(s, ops + [op]) == Do(Run(s, ops), op)
  {
    assert (ops + [op])[..|ops + [op]| - 1] == ops;
  }

  /** Operation by operation. */
  lemma RunThen(s: Guard, ops: seq<Op>, t: Guard, op: Op) returns (more: seq<Op>, u: Guard)
    requires Run(s, ops) == t
    ensures Run(s, more) == u && u == Do(t, op)
  {
    RunMore(s, ops, op);
    more, u := ops + [op], Do(t, op);
  }

  /** A leader can come to its result by its own next steps, whatever its load comes to. */
  lemma LeaderReady(s: Guard, h: nat, ok: bool) returns (ops: seq<Op>, t: Guard)
    requires h in s.callers && s.callers[h].Leading? && !s.callers[h].stage.Published?
    ensures Run(s, ops) == t && h in t.callers && t.callers == s.callers[h := t.callers[h]] && t.results == s.results
    ensures t.callers[h].Leading? && t.callers[h].stage.Ready? && t.callers[h].call == s.callers[h].call
  {
    ops, t := [], s;
    match s.callers[h].stage {
      case Wanting => ops, t := RunThen(s, ops, t, GiveUp(h));
      case Loading(_) =>
        ops, t := RunThen(s, ops, t, EndLoad(h, ok));
        ops, t := RunThen(s, ops, t, ReturnSlot(h));
      case Holding(_) => ops, t := RunThen(s, ops, t, ReturnSlot(h));
      case Ready(_) =>
    }
  }

  /** And publish it. */
  lemma LeaderPublishes(s: Guard, h: nat, ok: bool) returns (ops: seq<Op>, t: Guard)
    requires h in s.callers && s.callers[h].Leading? && !s.callers[h].stage.Published?
    ensures Run(s, ops) == t && h in t.callers && t.callers == s.callers[h := t.callers[h]] && s.callers[h].call in t.results
    ensures t.callers[h].Leading? && t.callers[h].stage.Published?
  {
    ops, t := LeaderReady(s, h, ok);
    ops, t := RunThen(s, ops, t, Publish(h));
  }

  lemma LeaderReturns(s: Guard, g: nat) returns (ops: seq<Op>)
    requires g in s.callers && s.callers[g].Leading?
    ensures g in Run(s, ops).callers && Run(s, ops).callers[g].Returned?
  {
    var t := s;
    ops := [];
    if !s.callers[g].stage.Published? { ops, t := LeaderPublishes(s, g, true); }
    ops, t := RunThen(s, ops, t, Leave(g));
  }

  lemma WaiterReturns(s: Guard, g: nat) returns (ops: seq<Op>)
    requires CallersSound(s) && g in s.callers && s.callers[g].Waiting? && FlightGoesOn(s, s.callers[g].call)
    ensures g in Run(s, ops).callers && Run(s, ops).callers[g].Returned?
  {
    var t, call := s, s.callers[g].call;
    ops := [];
    if call !in s.results {
      var h :| h in s.callers && s.callers[h].Leading? && s.callers[h].call == call;
      assert CallerSound(s, s.callers[h]);
      ops, t := LeaderPublishes(s, h, true);
    }
    ops, t := RunThen(s, ops, t, Wake(g));
  }

  /** From every reachable state every caller can still return: no flight is lost and no slot is needed to give up. */
  lemma NobodyStuck(limit: nat, before: seq<Op>, g: nat) returns (after: seq<Op>)
    requires g in Run(Start(limit), before).callers
    ensures var t := Run(Run(Start(limit), before), after); g in t.callers && t.callers[g].Returned?
  {
    var s := Run(Start(limit), before);
    NeverOrphaned(limit, before);
    Reachable(limit, before);
    after := [];
    if s.callers[g].Leading? {
      after := LeaderReturns(s, g);
    } else if s.callers[g].Waiting? {
      after := WaiterReturns(s, g);
    }
  }

  /** As long as fewer than `limit` callers hold a slot, a leader that wants one gets it and loads its own key. */
  lemma SlotIsFree(limit: nat, ops: seq<Op>, g: nat)
    requires var s := Run(Start(limit), ops);
             g in s.callers && s.callers[g].Leading? && s.callers[g].stage.Wanting? && |Holders(s.callers)| < limit
    ensures var s := Run(Start(limit), ops);
            var t := Do(s, TakeSlot(g));
            Running(t, g) && t.loads == s.loads + [s.callers[g].key] && t.callers[g].stage.load == |s.loads|
  {
    Reachable(limit, ops);
  }
}
