/** The database gate and its outage cache. The repository stamps each tool's status when it
    stores it; the client keeps one stamp for all tools. Clocks are monotonic, in seconds. */
module StatusCache {
  import opened Wrappers
  import opened ToolDatabase

  const CACHE_TTL := 300.0

  datatype Cached = Cached(status: Status, loadedAt: real)

  type Cache = map<ToolId, Cached>

  datatype Intent = FetchTool | ReturnTool

  datatype Reason =
    | Fine | UnsupportedIntent | NoToolId | SchemaError | NoUsableCache | UnknownTool
    | WrongStatus(status: Status)

  // How opening the database ends.
  datatype Access = Reached | SchemaInvalid | Unreached

  // The rule a status has to meet.
  predicate Admits(intent: Intent, status: Status) {
    match intent
    case FetchTool => status == InSlot
    case ReturnTool => status == Staged
  }

  /** The gate lets through exactly the intents whose first update, the pick of a fetch or of a
      return, the database then takes. */
  lemma AdmitsIffPickAccepted(intent: Intent, db: Db, tool: ToolId, track: Track, notes: string)
    requires tool in db.tools && tool != ""
    ensures var kind := if intent == FetchTool then Fetch else Return;
            Admits(intent, db.tools[tool].status)
            <==> Accepts(db, Update(tool, Some(Out), Some(kind), Some(track), notes))
  {
  }

  function Gate(intent: Intent, status: Status): Reason {
    if Admits(intent, status) then Fine else WrongStatus(status)
  }

  /** _cached_status: an entry is used up to its 300th second. */
  function Usable(cache: Cache, tool: ToolId, clock: real): Option<Status> {
    if tool in cache && clock - cache[tool].loadedAt <= CACHE_TTL then Some(cache[tool].status) else None
  }

  // The status the gate judges by.
  function Judged(db: Db, cache: Cache, tool: ToolId, access: Access, clock: real): Option<Status> {
    if access == Reached then (if tool in db.tools then Some(db.tools[tool].status) else None)
    else if access == Unreached then Usable(cache, tool, clock)
    else None
  }

  predicate Asked(intent: Option<Intent>, tool: ToolId) {
    intent.Some? && tool != ""
  }

  /** The repository's own part of the gate. */
  class ToolRepository {
    var cache: Cache

    constructor ()
      ensures cache == map[]
    {
      cache := map[];
    }

    method CachedStatus(tool: ToolId, clock: real) returns (status: Option<Status>)
      ensures status == Usable(cache, tool, clock)
    {
      if tool !in cache {
        return None;
      }
      var age := clock - cache[tool].loadedAt;
      if age > CACHE_TTL {
        return None;
      }
      return Some(cache[tool].status);
    }

    // _check_status with _reject: `logged` tells whether the rejection could be written.
    method CheckStatus(db: Database, intent: Intent, tool: ToolId, status: Status, logged: bool, now: Time)
      returns (reason: Reason)
      modifies db
      ensures reason == Gate(intent, status)
      ensures db.Now() ==
              if logged && !Admits(intent, status) then RejectTx(old(db.Now()), tool, status, None, "", now)
              else old(db.Now())
    {
      if intent == FetchTool && status == InSlot {
        return Fine;
      }
      if intent == ReturnTool && status == Staged {
        return Fine;
      }
      if logged && tool in db.tools {
        db.AppendRejection(tool, status, None, "", now);
      }
      return WrongStatus(status);
    }

    /** check_feasibility: feasible exactly when the status it judges by admits the intent,
        and only a status read from the database enters the cache. */
    method CheckFeasibility(db: Database, intent: Option<Intent>, tool: ToolId, access: Access, logged: bool,
                            clock: real, now: Time)
      returns (reason: Reason)
      modifies this, db
      ensures reason == Fine <==>
              Asked(intent, tool) && Judged(old(db.Now()), old(cache), tool, access, clock).Some?
              && Admits(intent.value, Judged(old(db.Now()), old(cache), tool, access, clock).value)
      ensures reason.WrongStatus? ==> Judged(old(db.Now()), old(cache), tool, access, clock) == Some(reason.status)
      ensures cache == if Asked(intent, tool) && access == Reached && tool in old(db.tools)
                       then old(cache)[tool := Cached(old(db.tools)[tool].status, clock)] else old(cache)
      ensures db.Now() ==
              if logged && reason.WrongStatus? then RejectTx(old(db.Now()), tool, reason.status, None, "", now)
              else old(db.Now())
    {
      if intent == None {
        return UnsupportedIntent;
      }
      if tool == "" {
        return NoToolId;
      }
      if access == SchemaInvalid {
        return SchemaError;
      }
      if access == Unreached {
        var status := CachedStatus(tool, clock);
        if status == None {
          return NoUsableCache;
        }
        reason := CheckStatus(db, intent.value, tool, status.value, logged, now);
        return;
      }
      if tool !in db.tools {
        return UnknownTool;
      }
      var status := db.tools[tool].status;
      cache := cache[tool := Cached(status, clock)];
      reason := CheckStatus(db, intent.value, tool, status, logged, now);
    }

    /** update_tool_status: the new status enters the cache only after its commit. */
    method UpdateToolStatus(db: Database, u: Update, access: Access, clock: real, now: Time) returns (success: bool)
      modifies this, db
      ensures success <==> access == Reached && Accepts(old(db.Now()), u)
      ensures db.Now() == if access == Reached then UpdateTx(old(db.Now()), u, now) else old(db.Now())
      ensures cache == if success then old(cache)[u.tool := Cached(u.status.value, clock)] else old(cache)
    {
      if access != Reached {
        return false;
      }
      success := db.UpdateToolStatus(u, now);
      if success {
        cache := cache[u.tool := Cached(u.status.value, clock)];
      }
    }
  }

  // ---------------------------------------------------------------- all interleavings

  // The database's contents from `since` until the next moment.
  datatype Moment = Moment(since: real, db: Db)

  // A status that was read (or committed here) but is not in the cache yet; `moment` is where
  // in the past it was read.
  datatype Read = Read(tool: ToolId, status: Status, at: real, moment: nat)

  // `past` and `source` are history: what the database held, and the read behind each entry.
  datatype World = World(db: Db, clock: real, cache: Cache, pending: seq<Read>, past: seq<Moment>,
                         source: map<ToolId, Read>)

  datatype Step =
    | TimePasses(d: real)
    | OtherWrites(step: ToolDatabase.Step)
    | OwnUpdate(u: Update, now: Time)
    | Select(tool: ToolId)
    | Store(i: nat)

  function Written(w: World, db: Db): World {
    w.(db := db, past := w.past + [Moment(w.clock, db)])
  }

  function ReadNow(w: World, tool: ToolId): World
    requires tool in w.db.tools && w.past != []
  {
    w.(pending := w.pending + [Read(tool, w.db.tools[tool].status, w.clock, |w.past| - 1)])
  }

  // One atomic step; a step that is not possible changes nothing.
  function Next(w: World, step: Step): World
    requires WellFormed(w.db) && w.past != []
  {
    match step
    case TimePasses(d) => if d >= 0.0 then w.(clock := w.clock + d) else w
    case OtherWrites(s) => Written(w, ToolDatabase.Next(w.db, s))
    case OwnUpdate(u, now) => if Accepts(w.db, u) then ReadNow(Written(w, UpdateTx(w.db, u, now)), u.tool) else w
    case Select(tool) => if tool in w.db.tools then ReadNow(w, tool) else w
    case Store(i) =>
      if i < |w.pending| then
        var r := w.pending[i];
        w.(cache := w.cache[r.tool := Cached(r.status, w.clock)], source := w.source[r.tool := r],
           pending := w.pending[..i] + w.pending[i + 1..])
      else w
  }

  predicate Fresh(w: World) {
    w.cache == map[] && w.pending == [] && w.past == [Moment(w.clock, w.db)] && w.source == map[]
  }

  // Moment i of the past covers time t.
  predicate Covers(past: seq<Moment>, i: nat, t: real) {
    i < |past| && past[i].since <= t && (i + 1 < |past| ==> t <= past[i + 1].since)
  }

  predicate StatusIn(db: Db, tool: ToolId, status: Status) {
    tool in db.tools && db.tools[tool].status == status
  }

  // The tool really had the status in the database at time t.
  ghost predicate HadStatus(past: seq<Moment>, tool: ToolId, status: Status, t: real) {
    exists i: nat :: Covers(past, i, t) && StatusIn(past[i].db, tool, status)
  }

  predicate ReadOk(past: seq<Moment>, clock: real, r: Read) {
    r.at <= clock && Covers(past, r.moment, r.at) && StatusIn(past[r.moment].db, r.tool, r.status)
  }

  ghost predicate EntryOk(w: World, tool: ToolId, delay: real)
    requires tool in w.cache
  {
    && tool in w.source && w.source[tool].tool == tool && w.source[tool].status == w.cache[tool].status
    && ReadOk(w.past, w.clock, w.source[tool])
    && w.source[tool].at <= w.cache[tool].loadedAt <= w.source[tool].at + delay
    && w.cache[tool].loadedAt <= w.clock
  }

  ghost predicate PastOk(w: World) {
    WellFormed(w.db) && w.past != [] && w.past[|w.past| - 1].since <= w.clock && w.past[|w.past| - 1].db == w.db
  }

  ghost predicate Inv(w: World, delay: real) {
    && PastOk(w)
    && (forall i :: 0 <= i < |w.pending| ==> ReadOk(w.past, w.clock, w.pending[i]))
    && (forall tool :: tool in w.cache ==> EntryOk(w, tool, delay))
  }

  // No read waits longer than `delay` for its stamp.
  predicate Prompt(w: World, step: Step, delay: real) {
    step.Store? && step.i < |w.pending| ==> w.clock - w.pending[step.i].at <= delay
  }

  lemma WrittenKeeps(w: World, db: Db, delay: real)
    requires Inv(w, delay) && WellFormed(db)
    ensures Inv(Written(w, db), delay)
  {
    var t := Written(w, db);
    forall r: Read | ReadOk(w.past, w.clock, r)
      ensures ReadOk(t.past, t.clock, r)
    {
    }
    forall tool | tool in t.cache
      ensures EntryOk(t, tool, delay)
    {
      assert EntryOk(w, tool, delay);
    }
  }

  lemma ReadKeeps(w: World, tool: ToolId, delay: real)
    requires Inv(w, delay) && tool in w.db.tools
    ensures Inv(ReadNow(w, tool), delay)
  {
    var t := ReadNow(w, tool);
    forall id | id in t.cache
      ensures EntryOk(t, id, delay)
    {
      assert EntryOk(w, id, delay);
    }
  }

  lemma StepKeeps(w: World, step: Step, delay: real)
    requires Inv(w, delay) && Prompt(w, step, delay)
    ensures Inv(Next(w, step), delay)
  {
    var t := Next(w, step);
    match step
    case TimePasses(d) =>
      forall id | id in t.cache
        ensures EntryOk(t, id, delay)
      {
        assert EntryOk(w, id, delay);
      }
    case OtherWrites(s) =>
      NextShape(w.db, s);
      WrittenKeeps(w, ToolDatabase.Next(w.db, s), delay);
    case OwnUpdate(u, now) =>
      if Accepts(w.db, u) {
        NextShape(w.db, DoUpdate(u, now));
        WrittenKeeps(w, UpdateTx(w.db, u, now), delay);
        ReadKeeps(Written(w, UpdateTx(w.db, u, now)), u.tool, delay);
      }
    case Select(tool) =>
      if tool in w.db.tools {
        ReadKeeps(w, tool, delay);
      }
    case Store(i) =>
      forall id | id in t.cache
        ensures EntryOk(t, id, delay)
      {
        if i < |w.pending| && id == w.pending[i].tool {
          assert ReadOk(w.past, w.clock, w.pending[i]);
        } else {
          assert EntryOk(w, id, delay);
        }
      }
  }

  function Run(w: World, steps: seq<Step>): (t: World)
    requires WellFormed(w.db) && w.past != []
    ensures WellFormed(t.db) && t.past != []
    decreases |steps|
  {
    if steps == [] then w
    else
      NextIsWellFormed(w, steps[0]);
      Run(Next(w, steps[0]), steps[1..])
  }

  lemma NextIsWellFormed(w: World, step: Step)
    requires WellFormed(w.db) && w.past != []
    ensures WellFormed(Next(w, step).db) && Next(w, step).past != []
  {
    match step
    case OtherWrites(s) => NextShape(w.db, s);
    case OwnUpdate(u, now) => NextShape(w.db, DoUpdate(u, now));
    case _ =>
  }

  predicate AllPrompt(w: World, steps: seq<Step>, delay: real)
    requires PastIs(w)
    decreases |steps|
  {
    if steps == [] then true
    else
      NextIsWellFormed(w, steps[0]);
      Prompt(w, steps[0], delay) && AllPrompt(Next(w, steps[0]), steps[1..], delay)
  }

  ghost predicate PastIs(w: World) {
    WellFormed(w.db) && w.past != []
  }

  lemma {:induction false} RunKeeps(w: World, steps: seq<Step>, delay: real)
    requires Inv(w, delay) && AllPrompt(w, steps, delay)
    ensures Inv(Run(w, steps), delay)
    decreases |steps|
  {
    if steps != [] {
      StepKeeps(w, steps[0], delay);
      RunKeeps(Next(w, steps[0]), steps[1..], delay);
    }
  }

  /** A decision taken from the cache uses a status the tool really had in the database at most
      300 seconds plus the delay between reading and stamping earlier, whatever other processes
      wrote and in whatever order threads stored what they had read. */
  lemma CachedStatusIsRecent(start: World, steps: seq<Step>, delay: real, tool: ToolId)
    requires WellFormed(start.db) && Fresh(start) && delay >= 0.0 && AllPrompt(start, steps, delay)
    requires var w := Run(start, steps); Usable(w.cache, tool, w.clock).Some?
    ensures var w := Run(start, steps);
            exists t: real :: w.clock - CACHE_TTL - delay <= t <= w.clock
                              && HadStatus(w.past, tool, Usable(w.cache, tool, w.clock).value, t)
  {
    RunKeeps(start, steps, delay);
    var w := Run(start, steps);
    assert EntryOk(w, tool, delay);
    var r := w.source[tool];
    assert Covers(w.past, r.moment, r.at) && StatusIn(w.past[r.moment].db, tool, r.status);
    assert HadStatus(w.past, tool, r.status, r.at);
  }

  // A chain of steps taken one by one.
  lemma RunStep(w: World, steps: seq<Step>)
    requires PastIs(w) && steps != []
    ensures PastIs(Next(w, steps[0])) && Run(w, steps) == Run(Next(w, steps[0]), steps[1..])
  {
    NextIsWellFormed(w, steps[0]);
  }

  function FetchPick(tool: ToolId): Update {
    Update(tool, Some(Out), Some(Fetch), Some(A), "")
  }

  // A row is read, another process takes the tool out, and the read is stamped `delay` later.
  function LateStore(tool: ToolId, delay: real): seq<Step> {
    [Select(tool), OtherWrites(DoUpdate(FetchPick(tool), 0)), TimePasses(delay), Store(0), TimePasses(CACHE_TTL)]
  }

  // The world after the first n steps of LateStore, from a fresh one.
  function LateStoreWorld(db: Db, tool: ToolId, delay: real, n: nat): World
    requires n <= 5
  {
    var out := UpdateTx(db, FetchPick(tool), 0);
    var r := Read(tool, InSlot, 0.0, 0);
    World(if n < 2 then db else out,
          if n < 3 then 0.0 else if n < 5 then delay else delay + CACHE_TTL,
          if n < 4 then map[] else map[tool := Cached(InSlot, delay)],
          if 1 <= n < 4 then [r] else [],
          if n < 2 then [Moment(0.0, db)] else [Moment(0.0, db), Moment(0.0, out)],
          if n < 4 then map[] else map[tool := r])
  }

  lemma LateStoreStep(db: Db, tool: ToolId, delay: real, n: nat)
    requires WellFormed(db) && tool != "" && StatusIn(db, tool, InSlot) && delay >= 0.0 && n < 5
    ensures PastIs(LateStoreWorld(db, tool, delay, n))
    ensures Next(LateStoreWorld(db, tool, delay, n), LateStore(tool, delay)[n])
         == LateStoreWorld(db, tool, delay, n + 1)
  {
    NextShape(db, DoUpdate(FetchPick(tool), 0));
  }

  lemma {:induction false} LateStoreRuns(db: Db, tool: ToolId, delay: real, n: nat)
    requires WellFormed(db) && tool != "" && StatusIn(db, tool, InSlot) && delay >= 0.0 && n <= 5
    ensures PastIs(LateStoreWorld(db, tool, delay, n))
    ensures Run(LateStoreWorld(db, tool, delay, n), LateStore(tool, delay)[n..]) == LateStoreWorld(db, tool, delay, 5)
    decreases 5 - n
  {
    if n < 5 {
      hide Next;
      LateStoreStep(db, tool, delay, n);
      LateStoreRuns(db, tool, delay, n + 1);
      hide LateStoreWorld, LateStore;
      assert LateStore(tool, delay)[n..][1..] == LateStore(tool, delay)[n + 1..];
      RunStep(LateStoreWorld(db, tool, delay, n), LateStore(tool, delay)[n..]);
    } else {
      LateStoreStep(db, tool, delay, 4);
      NextIsWellFormed(LateStoreWorld(db, tool, delay, 4), LateStore(tool, delay)[4]);
    }
  }

  /** The delay really adds to the age: with any delay there is a run in which the cache still
      answers that the tool is in its slot, and it last was 300 seconds plus the delay ago. */
  lemma DelayAddsToAge(db: Db, tool: ToolId, delay: real)
    requires WellFormed(db) && tool != "" && StatusIn(db, tool, InSlot) && delay >= 0.0
    ensures var start := World(db, 0.0, map[], [], [Moment(0.0, db)], map[]);
            var w := Run(start, LateStore(tool, delay));
            && Usable(w.cache, tool, w.clock) == Some(InSlot)
            && (forall t :: HadStatus(w.past, tool, InSlot, t) ==> t <= w.clock - CACHE_TTL - delay)
  {
    LateStoreRuns(db, tool, delay, 0);
    assert LateStore(tool, delay)[0..] == LateStore(tool, delay);
  }

  // ---------------------------------------------------------------- the client's second cache

  datatype Answer = Found(status: Status) | NotFound | Expired | NotCached | NotConnected

  // `loadedAt` is shared by all entries.
  datatype Client = Client(cache: map<ToolId, Status>, loadedAt: real)

  // One call of get_tool_status: what the database held, and whether the query worked.
  datatype Call = Call(tool: ToolId, db: Db, works: bool, clock: real)

  predicate ReadsRow(call: Call) {
    call.works && call.tool in call.db.tools
  }

  function AfterCall(c: Client, call: Call): Client {
    if ReadsRow(call) then Client(c.cache[call.tool := call.db.tools[call.tool].status], call.clock) else c
  }

  function Fallback(c: Client, tool: ToolId, clock: real): Answer {
    if clock - c.loadedAt > CACHE_TTL then Expired
    else if tool in c.cache then Found(c.cache[tool])
    else NotCached
  }

  class DbClient {
    var cache: map<ToolId, Status>
    var loadedAt: real
    var connected: bool

    constructor ()
      ensures Now() == Client(map[], 0.0) && !connected
    {
      cache, loadedAt, connected := map[], 0.0, false;
    }

    function Now(): Client
      reads this
    {
      Client(cache, loadedAt)
    }

    /** get_tool_status under its lock: only a failing query falls back on the cache. */
    method GetToolStatus(call: Call) returns (answer: Answer)
      modifies this
      ensures connected == old(connected)
      ensures Now() == if connected then AfterCall(old(Now()), call) else old(Now())
      ensures answer ==
              if !connected then NotConnected
              else if !call.works then Fallback(old(Now()), call.tool, call.clock)
              else if call.tool in call.db.tools then Found(call.db.tools[call.tool].status) else NotFound
    {
      if !connected {
        return NotConnected;
      }
      if call.works {
        if call.tool !in call.db.tools {
          return NotFound;
        }
        var status := call.db.tools[call.tool].status;
        cache := cache[call.tool := status];
        loadedAt := call.clock;
        return Found(status);
      }
      var elapsed := call.clock - loadedAt;
      if elapsed > CACHE_TTL {
        return Expired;
      }
      if call.tool !in cache {
        return NotCached;
      }
      return Found(cache[call.tool]);
    }
  }

  function AfterCalls(c: Client, calls: seq<Call>): Client
    decreases |calls|
  {
    if calls == [] then c else AfterCall(AfterCalls(c, calls[..|calls| - 1]), calls[|calls| - 1])
  }

  // The call at index i is the last to read a row for which `tool` is None or its tool.
  ghost predicate LastRead(calls: seq<Call>, tool: Option<ToolId>, i: nat) {
    && i < |calls| && ReadsRow(calls[i]) && (tool.Some? ==> calls[i].tool == tool.value)
    && forall k :: i < k < |calls| && ReadsRow(calls[k]) ==> tool.Some? && calls[k].tool != tool.value
  }

  /** What the fallback answers after any calls: the age test looks at the last read of any
      tool, the answer is what the last read of this tool found. */
  lemma {:induction false} FallbackUsesTwoReads(c: Client, calls: seq<Call>, tool: ToolId, i: nat, j: nat, clock: real)
    requires LastRead(calls, Some(tool), i) && LastRead(calls, None, j)
    ensures Fallback(AfterCalls(c, calls), tool, clock) ==
            if clock - calls[j].clock > CACHE_TTL then Expired else Found(calls[i].db.tools[tool].status)
  {
    EntryIsLastRead(c, calls, tool, i);
    StampIsLastRead(c, calls, j);
  }

  lemma {:induction false} EntryIsLastRead(c: Client, calls: seq<Call>, tool: ToolId, i: nat)
    requires LastRead(calls, Some(tool), i)
    ensures tool in AfterCalls(c, calls).cache && AfterCalls(c, calls).cache[tool] == calls[i].db.tools[tool].status
    decreases |calls|
  {
    if i < |calls| - 1 {
      var before := calls[..|calls| - 1];
      assert forall k :: 0 <= k < |before| ==> before[k] == calls[k];
      EntryIsLastRead(c, before, tool, i);
    }
  }

  lemma {:induction false} StampIsLastRead(c: Client, calls: seq<Call>, j: nat)
    requires LastRead(calls, None, j)
    ensures AfterCalls(c, calls).loadedAt == calls[j].clock
    decreases |calls|
  {
    if j < |calls| - 1 {
      var before := calls[..|calls| - 1];
      assert forall k :: 0 <= k < |before| ==> before[k] == calls[k];
      StampIsLastRead(c, before, j);
    }
  }

  /** Exactly when the fallback fails closed after the TTL, as it promises: at every later clock an
      answer is at most 300 seconds old if and only if no other tool was read at a later time
      than this one. */
  lemma FailsClosedIff(c: Client, calls: seq<Call>, tool: ToolId, i: nat, j: nat)
    requires LastRead(calls, Some(tool), i) && LastRead(calls, None, j)
    ensures (forall clock: real :: Fallback(AfterCalls(c, calls), tool, clock).Found?
               ==> clock - calls[i].clock <= CACHE_TTL)
       <==> calls[j].clock <= calls[i].clock
  {
    forall clock: real
      ensures Fallback(AfterCalls(c, calls), tool, clock).Found? <==> clock - calls[j].clock <= CACHE_TTL
    {
      FallbackUsesTwoReads(c, calls, tool, i, j, clock);
    }
    assert Fallback(AfterCalls(c, calls), tool, calls[j].clock + CACHE_TTL).Found?;
    hide Fallback, AfterCalls, LastRead;
  }

  /** For the tool read last, and so for a client that asks about one tool only, the answer is
      at most 300 seconds old. */
  lemma LastReadToolIsFresh(c: Client, calls: seq<Call>, tool: ToolId, i: nat, clock: real)
    requires LastRead(calls, None, i) && calls[i].tool == tool
    ensures Fallback(AfterCalls(c, calls), tool, clock) ==
            if clock - calls[i].clock <= CACHE_TTL then Found(calls[i].db.tools[tool].status) else Expired
  {
    FallbackUsesTwoReads(c, calls, tool, i, i, clock);
  }

  /** The shared stamp hides any age: tool `a` is read at time 0 and tool `b` at time `age`,
      when the database may hold anything for `a`; 300 seconds later the fallback still answers
      what `a` was at time 0. */
  lemma SharedStampHidesAge(db: Db, later: Db, a: ToolId, b: ToolId, age: real)
    requires a != b && a in db.tools && b in later.tools && age >= 0.0
    ensures var calls := [Call(a, db, true, 0.0), Call(b, later, true, age)];
            Fallback(AfterCalls(Client(map[], 0.0), calls), a, age + CACHE_TTL) == Found(db.tools[a].status)
  {
    var calls := [Call(a, db, true, 0.0), Call(b, later, true, age)];
    assert LastRead(calls, Some(a), 0) && LastRead(calls, None, 1);
    FallbackUsesTwoReads(Client(map[], 0.0), calls, a, 0, 1, age + CACHE_TTL);
  }
}
