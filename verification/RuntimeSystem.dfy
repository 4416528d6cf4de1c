/** Many clients and many runtime processes, started and restarted, over every interleaving of their steps. */
module RuntimeSystem {
  import opened Common
  import Json
  import opened Runtime

  /** A process, its gate and its idle watch. `idleAtStop` is set when the idle watch stops it, `stoppedBy` when a
      request does. */
  datatype Process = Process(
    id: Identity, alive: bool, counters: Counters, nextPoll: int, serving: set<nat>, idleAtStop: Option<int>,
    stoppedBy: Option<Incoming>)

  /** A connection to a process, from a client that waits for the reply or from any other peer. */
  datatype Connection = Connection(client: Option<nat>, pid: nat, request: Incoming, reply: Option<Reply>)

  /** A client call. `author` is the process whose reply settled it; None when the client got no reply. */
  datatype Phase = Idle | Asking(conn: nat) | Done(used: Option<nat>, settled: Settled, author: Option<Identity>)

  /** The connection that the call was made on. */
  function ConnOf(phase: Phase): Option<nat> {
    match phase
    case Idle => None
    case Asking(conn) => Some(conn)
    case Done(used, _, _) => used
  }

  datatype Client = Client(token: Token, build: string, database: string, path: Path, op: string, phase: Phase) {
    function Own(): Identity {
      Identity(token, build, database)
    }

    function Ask(): Incoming {
      Envelope(token, build, database, op)
    }
  }

  datatype System = System(now: int, procs: map<nat, Process>, conns: map<nat, Connection>, clients: map<nat, Client>)

  datatype Event =
    | Start(pid: nat, id: Identity)
    | Arrive(client: nat, token: Token, build: string, database: string, path: Path, op: string)
    | Connect(client: nat, conn: nat, pid: nat)
    | Send(conn: nat, pid: nat, request: Incoming)
    | Enter(conn: nat)
    | Serve(conn: nat, outcome: Outcome)
    | Leave(conn: nat)
    | Deliver(client: nat)
    | Lose(client: nat)
    | Kill(pid: nat)
    | Poll(pid: nat)
    | Tick

  function Empty(): System {
    System(0, map[], map[], map[])
  }

  function SetProc(s: System, pid: nat, p: Process): System {
    s.(procs := s.procs[pid := p])
  }

  predicate Alive(s: System, pid: nat) {
    pid in s.procs && s.procs[pid].alive
  }

  /** A new process; a restart is a process under a new number. */
  function DoStart(s: System, pid: nat, id: Identity): System {
    if pid in s.procs then s
    else SetProc(s, pid, Process(id, true, Counters(false, s.now, 0), s.now + IDLE_POLL_SECONDS, {}, None, None))
  }

  function DoArrive(s: System, k: nat, c: Client): System {
    if k in s.clients || c.build == "" || c.database == "" || !IsProductOp(c.op) then s
    else s.(clients := s.clients[k := c.(phase := Idle)])
  }

  function DoConnect(s: System, k: nat, conn: nat, pid: nat): System {
    if k !in s.clients || !s.clients[k].phase.Idle? || conn in s.conns || !Alive(s, pid) then s
    else s.(conns := s.conns[conn := Connection(Some(k), pid, s.clients[k].Ask(), None)],
            clients := s.clients[k := s.clients[k].(phase := Asking(conn))])
  }

  /** Any peer sends anything: a status or shutdown request, as a client does after a mismatch, or something
      malformed. */
  function DoSend(s: System, conn: nat, pid: nat, request: Incoming): System {
    if conn in s.conns || !Alive(s, pid) then s
    else s.(conns := s.conns[conn := Connection(None, pid, request, None)])
  }

  /** `async with gate`: a request enters service while fewer than the limit are in it. */
  function DoEnter(s: System, conn: nat): System {
    if conn !in s.conns || s.conns[conn].reply.Some? || !Alive(s, s.conns[conn].pid) then s else
    var pid := s.conns[conn].pid;
    var p := s.procs[pid];
    if conn in p.serving || |p.serving| >= MAX_CONCURRENT then s
    else SetProc(s, pid, p.(serving := p.serving + {conn}))
  }

  function DoServe(s: System, conn: nat, outcome: Outcome): System {
    if conn !in s.conns || s.conns[conn].reply.Some? || !Alive(s, s.conns[conn].pid) then s else
    var c := s.conns[conn];
    var p := s.procs[c.pid];
    if conn !in p.serving then s else
    SetProc(s.(conns := s.conns[conn := c.(reply := Some(Respond(p.id, c.request, outcome)))]), c.pid,
            Served(p, s.now, c.request))
  }

  function Served(p: Process, now: int, request: Incoming): Process {
    p.(counters := AfterServing(p.counters, p.id, now, request),
       stoppedBy := if IsShutdown(p.id, request) then Some(request) else p.stoppedBy)
  }

  function DoLeave(s: System, conn: nat): System {
    if conn !in s.conns || s.conns[conn].reply.None? || !Alive(s, s.conns[conn].pid) then s else
    var pid := s.conns[conn].pid;
    SetProc(s, pid, s.procs[pid].(serving := s.procs[pid].serving - {conn}))
  }

  function DoDeliver(s: System, k: nat): System {
    if k !in s.clients || !s.clients[k].phase.Asking? then s else
    var client := s.clients[k];
    if client.phase.conn !in s.conns || s.conns[client.phase.conn].reply.None? then s else
    var c := s.conns[client.phase.conn];
    var author := if c.pid in s.procs then Some(s.procs[c.pid].id) else None;
    s.(clients := s.clients[k := client.(phase := Done(Some(client.phase.conn), Settle(client.path, c.reply), author))])
  }

  function Lost(c: Client): Phase {
    Done(ConnOf(c.phase), Settle(c.path, None), None)
  }

  /** The call fails to reach a runtime, times out, or the connection is lost. */
  function DoLose(s: System, k: nat): System {
    if k !in s.clients || s.clients[k].phase.Done? then s
    else s.(clients := s.clients[k := s.clients[k].(phase := Lost(s.clients[k]))])
  }

  function DoKill(s: System, pid: nat): System {
    if !Alive(s, pid) then s else SetProc(s, pid, s.procs[pid].(alive := false))
  }

  /** The idle watch wakes exactly when its sleep is over. */
  function DoPoll(s: System, pid: nat): System {
    if !Alive(s, pid) || s.procs[pid].counters.stopping || s.now != s.procs[pid].nextPoll then s else
    var p := s.procs[pid];
    var after := AfterPoll(p.counters, s.now);
    SetProc(s, pid, p.(counters := after, nextPoll := s.now + IDLE_POLL_SECONDS,
                       idleAtStop := if after.stopping then Some(s.now - p.counters.lastRequest) else None))
  }

  /** A second passes, unless an idle watch is due. */
  function DoTick(s: System): System {
    if exists pid ::
         pid in s.procs && s.procs[pid].alive && !s.procs[pid].counters.stopping && s.procs[pid].nextPoll <= s.now
    then s else s.(now := s.now + 1)
  }

  /** One step; an event that is not enabled changes nothing. */
  function Next(s: System, e: Event): System {
    match e
    case Start(pid, id) => DoStart(s, pid, id)
    case Arrive(k, token, build, database, path, op) => DoArrive(s, k, Client(token, build, database, path, op, Idle))
    case Connect(k, conn, pid) => DoConnect(s, k, conn, pid)
    case Send(conn, pid, request) => DoSend(s, conn, pid, request)
    case Enter(conn) => DoEnter(s, conn)
    case Serve(conn, outcome) => DoServe(s, conn, outcome)
    case Leave(conn) => DoLeave(s, conn)
    case Deliver(k) => DoDeliver(s, k)
    case Lose(k) => DoLose(s, k)
    case Kill(pid) => DoKill(s, pid)
    case Poll(pid) => DoPoll(s, pid)
    case Tick => DoTick(s)
  }

  /** The system after a run. */
  function Run(events: seq<Event>): System {
    if events == [] then Empty() else Next(Run(events[..|events| - 1]), events[|events| - 1])
  }

  // ---- the invariant ----

  /** The gate bounds the work, the idle watch keeps its promise in both directions, and whatever stops is known. */
  ghost predicate ProcessOk(s: System, pid: nat, p: Process) {
    |p.serving| <= MAX_CONCURRENT &&
    (forall c :: c in p.serving ==> c in s.conns && s.conns[c].pid == pid) &&
    (p.alive && !p.counters.stopping ==>
       p.counters.lastRequest <= s.now <= p.nextPoll &&
       p.nextPoll - IDLE_POLL_SECONDS - p.counters.lastRequest <= IDLE_SECONDS) &&
    (p.idleAtStop.Some? ==> IDLE_SECONDS < p.idleAtStop.value <= IDLE_SECONDS + IDLE_POLL_SECONDS) &&
    (p.counters.stopping ==> p.idleAtStop.Some? || p.stoppedBy.Some?) &&
    (p.stoppedBy.Some? ==> IsShutdown(p.id, p.stoppedBy.value))
  }

  /** A client's connection is the one its call was made on; it carries its envelope, and a result only from a
      process of the same identity. */
  ghost predicate ConnectionOk(s: System, conn: nat, c: Connection) {
    c.pid in s.procs &&
    (c.client.Some? ==>
       c.client.value in s.clients && c.request == s.clients[c.client.value].Ask() &&
       ConnOf(s.clients[c.client.value].phase) == Some(conn) &&
       (c.reply.Some? && c.reply.value.Answered? ==> s.procs[c.pid].id == s.clients[c.client.value].Own()))
  }

  ghost predicate ClientOk(s: System, k: nat, c: Client) {
    c.build != "" && c.database != "" && IsProductOp(c.op) &&
    match c.phase
    case Idle => true
    case Asking(conn) => conn in s.conns && s.conns[conn].client == Some(k)
    case Done(used, settled, author) =>
      (author.Some? ==>
         used.Some? && used.value in s.conns && s.conns[used.value].client == Some(k) &&
         s.conns[used.value].reply.Some? && settled == Settle(c.path, s.conns[used.value].reply)) &&
      (author.None? ==> settled == InProcess) && (settled.Accepted? ==> author == Some(c.Own())) &&
      (c.path.Writing? ==> settled != RaisedError("build_mismatch") && settled != RaisedError("database_mismatch"))
  }

  ghost predicate Inv(s: System) {
    (forall pid :: pid in s.procs ==> ProcessOk(s, pid, s.procs[pid])) &&
    (forall c :: c in s.conns ==> ConnectionOk(s, c, s.conns[c])) &&
    (forall k :: k in s.clients ==> ClientOk(s, k, s.clients[k]))
  }

  lemma StartKeeps(s: System, pid: nat, id: Identity)
    requires Inv(s)
    ensures Inv(DoStart(s, pid, id))
  {
    var s' := DoStart(s, pid, id);
    forall q | q in s'.procs
      ensures ProcessOk(s', q, s'.procs[q])
    {
      assert q != pid ==> ProcessOk(s, q, s.procs[q]);
    }
    forall c | c in s'.conns
      ensures ConnectionOk(s', c, s'.conns[c])
    {
      assert ConnectionOk(s, c, s.conns[c]);
    }
    forall k | k in s'.clients
      ensures ClientOk(s', k, s'.clients[k])
    {
      assert ClientOk(s, k, s.clients[k]);
    }
  }

  lemma ConnUnderProc(s: System, pid: nat, p: Process, conn: nat, c: Connection)
    requires ConnectionOk(s, conn, c) && pid in s.procs && p.id == s.procs[pid].id
    ensures ConnectionOk(SetProc(s, pid, p), conn, c)
  {
  }

  /** The client asks the same, on the same connection. */
  ghost predicate SameCall(a: Client, b: Client) {
    a.Own() == b.Own() && a.Ask() == b.Ask() && ConnOf(a.phase) == ConnOf(b.phase)
  }

  lemma ConnUnderClient(s: System, k: nat, client: Client, conn: nat, c: Connection)
    requires ConnectionOk(s, conn, c) && (k in s.clients ==> SameCall(client, s.clients[k]))
    ensures ConnectionOk(s.(clients := s.clients[k := client]), conn, c)
  {
  }

  /** Changing one process, without its identity, keeps the rest. */
  lemma ProcChangeKeeps(s: System, pid: nat, p: Process)
    requires Inv(s) && pid in s.procs && p.id == s.procs[pid].id && ProcessOk(s, pid, p)
    ensures Inv(SetProc(s, pid, p))
  {
    var s' := SetProc(s, pid, p);
    forall q | q in s'.procs
      ensures ProcessOk(s', q, s'.procs[q])
    {
      assert q != pid ==> ProcessOk(s, q, s.procs[q]);
    }
    forall c | c in s'.conns
      ensures ConnectionOk(s', c, s'.conns[c])
    {
      ConnUnderProc(s, pid, p, c, s.conns[c]);
    }
    forall k | k in s'.clients
      ensures ClientOk(s', k, s'.clients[k])
    {
      assert ClientOk(s, k, s.clients[k]);
    }
  }

  /** Changing one client, without what it asks, keeps the rest. */
  lemma ClientChangeKeeps(s: System, k: nat, c: Client)
    requires Inv(s) && ClientOk(s, k, c)
    requires k in s.clients ==> SameCall(c, s.clients[k])
    ensures Inv(s.(clients := s.clients[k := c]))
  {
    var s' := s.(clients := s.clients[k := c]);
    forall q | q in s'.procs
      ensures ProcessOk(s', q, s'.procs[q])
    {
      assert ProcessOk(s, q, s.procs[q]);
    }
    forall x | x in s'.conns
      ensures ConnectionOk(s', x, s'.conns[x])
    {
      ConnUnderClient(s, k, c, x, s.conns[x]);
    }
    forall j | j in s'.clients
      ensures ClientOk(s', j, s'.clients[j])
    {
      assert j != k ==> ClientOk(s, j, s.clients[j]);
    }
  }

  lemma ProcessUnderConn(s: System, conn: nat, c: Connection, q: nat)
    requires q in s.procs && ProcessOk(s, q, s.procs[q]) && (conn in s.conns ==> c.pid == s.conns[conn].pid)
    ensures ProcessOk(s.(conns := s.conns[conn := c]), q, s.procs[q])
  {
  }

  /** The connection is the same, but for a reply that it did not have. */
  ghost predicate Replies(a: Connection, b: Connection) {
    b.client == a.client && b.pid == a.pid && (a.reply.Some? ==> b.reply == a.reply)
  }

  lemma ClientUnderConn(s: System, conn: nat, c: Connection, k: nat)
    requires k in s.clients && ClientOk(s, k, s.clients[k]) && (conn in s.conns ==> Replies(s.conns[conn], c))
    ensures ClientOk(s.(conns := s.conns[conn := c]), k, s.clients[k])
  {
  }

  /** Adding a connection, or a reply to one, keeps the rest. */
  lemma ConnChangeKeeps(s: System, conn: nat, c: Connection)
    requires Inv(s) && ConnectionOk(s, conn, c) && (conn in s.conns ==> Replies(s.conns[conn], c))
    ensures Inv(s.(conns := s.conns[conn := c]))
  {
    var s' := s.(conns := s.conns[conn := c]);
    forall q | q in s'.procs
      ensures ProcessOk(s', q, s'.procs[q])
    {
      ProcessUnderConn(s, conn, c, q);
    }
    forall x | x in s'.conns
      ensures ConnectionOk(s', x, s'.conns[x])
    {
      assert x != conn ==> ConnectionOk(s, x, s.conns[x]);
    }
    forall j | j in s'.clients
      ensures ClientOk(s', j, s'.clients[j])
    {
      ClientUnderConn(s, conn, c, j);
    }
  }

  lemma ConnUnderConnect(s: System, k: nat, conn: nat, pid: nat, x: nat)
    requires Inv(s) && DoConnect(s, k, conn, pid) != s && x in s.conns
    ensures ConnectionOk(DoConnect(s, k, conn, pid), x, s.conns[x])
  {
    assert ConnectionOk(s, x, s.conns[x]);
  }

  lemma ClientUnderConnect(s: System, k: nat, conn: nat, pid: nat, j: nat)
    requires Inv(s) && DoConnect(s, k, conn, pid) != s && j in s.clients
    ensures ClientOk(DoConnect(s, k, conn, pid), j, DoConnect(s, k, conn, pid).clients[j])
  {
    assert ClientOk(s, j, s.clients[j]);
  }

  lemma ConnectKeeps(s: System, k: nat, conn: nat, pid: nat)
    requires Inv(s)
    ensures Inv(DoConnect(s, k, conn, pid))
  {
    var s' := DoConnect(s, k, conn, pid);
    if s' != s {
      forall q | q in s'.procs
        ensures ProcessOk(s', q, s'.procs[q])
      {
        assert ProcessOk(s, q, s.procs[q]);
      }
      forall x | x in s'.conns
        ensures ConnectionOk(s', x, s'.conns[x])
      {
        if x != conn {
          ConnUnderConnect(s, k, conn, pid, x);
        }
      }
      forall j | j in s'.clients
        ensures ClientOk(s', j, s'.clients[j])
      {
        ClientUnderConnect(s, k, conn, pid, j);
      }
    }
  }

  lemma SendKeeps(s: System, conn: nat, pid: nat, request: Incoming)
    requires Inv(s)
    ensures Inv(DoSend(s, conn, pid, request))
  {
    if DoSend(s, conn, pid, request) != s {
      ConnChangeKeeps(s, conn, Connection(None, pid, request, None));
    }
  }

  lemma EnterKeeps(s: System, conn: nat)
    requires Inv(s)
    ensures Inv(DoEnter(s, conn))
  {
    if DoEnter(s, conn) != s {
      var pid := s.conns[conn].pid;
      var p := s.procs[pid];
      assert ProcessOk(s, pid, p);
      assert |p.serving + {conn}| == |p.serving| + 1;
      ProcChangeKeeps(s, pid, p.(serving := p.serving + {conn}));
    }
  }

  lemma ReplyMatches(s: System, conn: nat, c: Connection, outcome: Outcome)
    requires ConnectionOk(s, conn, c) && (c.client.Some? ==> ClientOk(s, c.client.value, s.clients[c.client.value]))
    ensures ConnectionOk(s, conn, c.(reply := Some(Respond(s.procs[c.pid].id, c.request, outcome))))
  {
    if c.client.Some? {
      var client := s.clients[c.client.value];
      AnswersOnlyItsOwn(s.procs[c.pid].id, client.token, client.build, client.database, client.op, outcome);
    }
  }

  lemma ServedProcessOk(s: System, pid: nat, p: Process, request: Incoming)
    requires ProcessOk(s, pid, p)
    ensures ProcessOk(s, pid, Served(p, s.now, request))
  {
  }

  lemma ServeKeeps(s: System, conn: nat, outcome: Outcome)
    requires Inv(s)
    ensures Inv(DoServe(s, conn, outcome))
  {
    if DoServe(s, conn, outcome) != s {
      var c := s.conns[conn];
      var p := s.procs[c.pid];
      assert ConnectionOk(s, conn, c) && ProcessOk(s, c.pid, p);
      assert c.client.Some? ==> ClientOk(s, c.client.value, s.clients[c.client.value]);
      ReplyMatches(s, conn, c, outcome);
      var replied := c.(reply := Some(Respond(p.id, c.request, outcome)));
      ConnChangeKeeps(s, conn, replied);
      ProcessUnderConn(s, conn, replied, c.pid);
      var s1 := s.(conns := s.conns[conn := replied]);
      ServedProcessOk(s1, c.pid, p, c.request);
      ProcChangeKeeps(s1, c.pid, Served(p, s.now, c.request));
    }
  }

  lemma LeaveKeeps(s: System, conn: nat)
    requires Inv(s)
    ensures Inv(DoLeave(s, conn))
  {
    if DoLeave(s, conn) != s {
      var pid := s.conns[conn].pid;
      var p := s.procs[pid];
      assert ProcessOk(s, pid, p);
      Smaller(p.serving, conn);
      ProcChangeKeeps(s, pid, p.(serving := p.serving - {conn}));
    }
  }

  lemma Smaller(xs: set<nat>, x: nat)
    ensures |xs - {x}| <= |xs|
  {
    if x in xs {
      assert xs == (xs - {x}) + {x};
    } else {
      assert xs - {x} == xs;
    }
  }

  lemma DeliveredOk(s: System, k: nat, client: Client, conn: nat)
    requires k in s.clients && s.clients[k] == client && client.phase == Asking(conn) && ClientOk(s, k, client)
    requires ConnectionOk(s, conn, s.conns[conn]) && s.conns[conn].reply.Some?
    ensures var c := s.conns[conn]; var author := s.procs[c.pid].id;
            ClientOk(s, k, client.(phase := Done(Some(conn), Settle(client.path, c.reply), Some(author))))
  {
  }

  lemma DeliverKeeps(s: System, k: nat)
    requires Inv(s)
    ensures Inv(DoDeliver(s, k))
  {
    if DoDeliver(s, k) != s {
      var client := s.clients[k];
      var conn := client.phase.conn;
      assert ClientOk(s, k, client) && ConnectionOk(s, conn, s.conns[conn]);
      DeliveredOk(s, k, client, conn);
      var c := s.conns[conn];
      var author := s.procs[c.pid].id;
      ClientChangeKeeps(s, k, client.(phase := Done(Some(conn), Settle(client.path, c.reply), Some(author))));
    }
  }

  lemma LoseKeeps(s: System, k: nat)
    requires Inv(s)
    ensures Inv(DoLose(s, k))
  {
    if DoLose(s, k) != s {
      assert ClientOk(s, k, s.clients[k]);
      ClientChangeKeeps(s, k, s.clients[k].(phase := Lost(s.clients[k])));
    }
  }

  lemma PollKeeps(s: System, pid: nat)
    requires Inv(s)
    ensures Inv(DoPoll(s, pid))
  {
    if DoPoll(s, pid) != s {
      assert ProcessOk(s, pid, s.procs[pid]);
      ProcChangeKeeps(s, pid, DoPoll(s, pid).procs[pid]);
    }
  }

  lemma KillKeeps(s: System, pid: nat)
    requires Inv(s)
    ensures Inv(DoKill(s, pid))
  {
    if DoKill(s, pid) != s {
      assert ProcessOk(s, pid, s.procs[pid]);
      ProcChangeKeeps(s, pid, s.procs[pid].(alive := false));
    }
  }

  lemma TickKeeps(s: System)
    requires Inv(s)
    ensures Inv(DoTick(s))
  {
    var s' := DoTick(s);
    if s' != s {
      forall q | q in s'.procs
        ensures ProcessOk(s', q, s'.procs[q])
      {
        assert ProcessOk(s, q, s.procs[q]);
      }
      forall x | x in s'.conns
        ensures ConnectionOk(s', x, s'.conns[x])
      {
        assert ConnectionOk(s, x, s.conns[x]);
      }
      forall j | j in s'.clients
        ensures ClientOk(s', j, s'.clients[j])
      {
        assert ClientOk(s, j, s.clients[j]);
      }
    }
  }

  /** Every step keeps the invariant. */
  lemma NextKeeps(s: System, e: Event)
    requires Inv(s)
    ensures Inv(Next(s, e))
  {
    match e
    case Start(pid, id) => StartKeeps(s, pid, id);
    case Arrive(k, token, build, database, path, op) =>
      if DoArrive(s, k, Client(token, build, database, path, op, Idle)) != s {
        ClientChangeKeeps(s, k, Client(token, build, database, path, op, Idle));
      }
    case Connect(k, conn, pid) => ConnectKeeps(s, k, conn, pid);
    case Send(conn, pid, request) => SendKeeps(s, conn, pid, request);
    case Enter(conn) => EnterKeeps(s, conn);
    case Serve(conn, outcome) => ServeKeeps(s, conn, outcome);
    case Leave(conn) => LeaveKeeps(s, conn);
    case Deliver(k) => DeliverKeeps(s, k);
    case Lose(k) => LoseKeeps(s, k);
    case Kill(pid) => KillKeeps(s, pid);
    case Poll(pid) => PollKeeps(s, pid);
    case Tick => TickKeeps(s);
  }

  lemma {:induction false} RunKeeps(events: seq<Event>)
    ensures Inv(Run(events))
  {
    if events != [] {
      RunKeeps(events[..|events| - 1]);
      NextKeeps(Run(events[..|events| - 1]), events[|events| - 1]);
    }
  }

  // ---- safety over every run ----

  /** Every result that a client accepts was computed by a process of the client's own build and database,
      and no write ends in a mismatch error. */
  lemma {:induction false} AcceptedResultsMatch(events: seq<Event>, k: nat)
    requires var s := Run(events); k in s.clients && s.clients[k].phase.Done?
    ensures var c := Run(events).clients[k];
            (c.phase.settled.Accepted? ==>
               c.phase.author.Some? && c.phase.author.value.build == c.build &&
               c.phase.author.value.database == c.database) &&
            (c.path.Writing? ==>
               c.phase.settled != RaisedError("build_mismatch") && c.phase.settled != RaisedError("database_mismatch"))
  {
    RunKeeps(events);
    assert ClientOk(Run(events), k, Run(events).clients[k]);
  }

  /** At most four requests are in service in a process at once. */
  lemma {:induction false} GateBoundsService(events: seq<Event>, pid: nat)
    requires pid in Run(events).procs
    ensures |Run(events).procs[pid].serving| <= 4
  {
    RunKeeps(events);
    assert ProcessOk(Run(events), pid, Run(events).procs[pid]);
  }

  /** The idle watch stops a process only after more than 900 seconds without an operation, and at the first
      poll after that: no process that still runs has been idle for longer than 915 seconds. */
  lemma {:induction false} IdleStopIsTimely(events: seq<Event>, pid: nat)
    requires pid in Run(events).procs
    ensures var s, p := Run(events), Run(events).procs[pid];
            (p.idleAtStop.Some? ==> 900 < p.idleAtStop.value <= 915) &&
            (p.alive && !p.counters.stopping ==> s.now - p.counters.lastRequest <= 915)
  {
    RunKeeps(events);
    assert ProcessOk(Run(events), pid, Run(events).procs[pid]);
  }

  /** Whatever is sent to it by anyone, a process stops only when it has idled or on a shutdown request that names its
      own token, and its own build and database if it names any. */
  lemma {:induction false} StopsAreItsOwn(events: seq<Event>, pid: nat)
    requires pid in Run(events).procs
    ensures var p := Run(events).procs[pid];
            (p.counters.stopping ==> p.idleAtStop.Some? || p.stoppedBy.Some?) &&
            (p.stoppedBy.Some? ==> StopsIt(p.id, p.stoppedBy.value))
  {
    RunKeeps(events);
    assert ProcessOk(Run(events), pid, Run(events).procs[pid]);
  }

  ghost predicate StopsIt(id: Identity, request: Incoming) {
    request.Request? && request.token == Json.Str(id.token) && request.op == Json.Str("shutdown") &&
    (Json.Truthy(request.build) ==> request.build == Json.Str(id.build)) &&
    (Json.Truthy(request.database) ==> request.database == Json.Str(id.database))
  }

  /** So the stop request that a client sends to discard a process of another build or database never stops it. */
  lemma {:induction false} StaleProcessIsNeverDiscarded(events: seq<Event>, pid: nat, token: Token, build: string,
                                                        database: string)
    requires pid in Run(events).procs && build != "" && database != ""
    requires Run(events).procs[pid].stoppedBy == Some(Envelope(token, build, database, "shutdown"))
    ensures Run(events).procs[pid].id == Identity(token, build, database)
  {
    StopsAreItsOwn(events, pid);
  }

  // ---- work that is done twice ----

  /** A runtime has done the work of client `k`. */
  ghost predicate Computed(s: System, k: nat) {
    exists conn :: ComputedOn(s, k, conn)
  }

  ghost predicate ComputedOn(s: System, k: nat, conn: nat) {
    conn in s.conns && s.conns[conn].client == Some(k) && s.conns[conn].reply.Some? &&
    s.conns[conn].reply.value.Answered?
  }

  /** No runtime does a client's work twice, and its work is done again in process exactly when a runtime did it and
      the client got no reply: whatever a runtime replies after doing it is accepted. */
  lemma {:induction false} DoneTwiceExactly(events: seq<Event>, k: nat)
    requires var s := Run(events); k in s.clients && s.clients[k].phase.Done?
    ensures forall x, y :: ComputedOn(Run(events), k, x) && ComputedOn(Run(events), k, y) ==> x == y
    ensures var s := Run(events); var phase := s.clients[k].phase;
            Computed(s, k) ==>
              (phase.settled.InProcess? <==> phase.author.None?) && (phase.settled.Accepted? <==> phase.author.Some?)
  {
    var s := Run(events);
    RunKeeps(events);
    assert ClientOk(s, k, s.clients[k]);
    forall x | ComputedOn(s, k, x)
      ensures ConnOf(s.clients[k].phase) == Some(x)
    {
      assert ConnectionOk(s, x, s.conns[x]);
    }
  }

  lemma RunStep(events: seq<Event>, e: Event)
    ensures Run(events + [e]) == Next(Run(events), e)
  {
    assert (events + [e])[..|events|] == events;
  }

  /** Client `k` writes and waits on connection `conn`, and a runtime of its own identity has the request in service. */
  ghost predicate InService(s: System, k: nat, conn: nat) {
    k in s.clients && s.clients[k].phase == Asking(conn) && s.clients[k].path.Writing? &&
    IsProductOp(s.clients[k].op) && s.clients[k].build != "" && s.clients[k].database != "" &&
    conn in s.conns && s.conns[conn].client == Some(k) && s.conns[conn].reply.None? &&
    s.conns[conn].request == s.clients[k].Ask() && Alive(s, s.conns[conn].pid) &&
    conn in s.procs[s.conns[conn].pid].serving && s.procs[s.conns[conn].pid].id == s.clients[k].Own()
  }

  ghost predicate DoneTwice(s: System, k: nat) {
    k in s.clients && s.clients[k].path.Writing? && s.clients[k].phase.Done? &&
    s.clients[k].phase.settled == InProcess && Computed(s, k)
  }

  lemma LossAfterService(s: System, k: nat, conn: nat, result: Json.Json)
    requires InService(s, k, conn)
    ensures DoneTwice(Next(Next(s, Serve(conn, Outcome.Computed(result))), Lose(k)), k)
  {
    var c := s.clients[k];
    AnswersOnlyItsOwn(c.Own(), c.token, c.build, c.database, c.op, Outcome.Computed(result));
    var served := Next(s, Serve(conn, Outcome.Computed(result)));
    assert ComputedOn(served, k, conn);
    assert ComputedOn(Next(served, Lose(k)), k, conn);
  }

  lemma GetsIntoService(id: Identity)
    requires id.build != "" && id.database != ""
    ensures var s := Next(Next(Empty(), Start(0, id)), Arrive(0, id.token, id.build, id.database, Writing, "remember"));
            InService(Next(Next(s, Connect(0, 0, 0)), Enter(0)), 0, 0)
  {
  }

  /** It happens to a write: the runtime has done it, the reply is lost, and the client does it again. */
  lemma LostReplyIsDoneTwice(id: Identity, result: Json.Json) returns (events: seq<Event>)
    requires id.build != "" && id.database != ""
    ensures DoneTwice(Run(events), 0)
  {
    var arrive := Arrive(0, id.token, id.build, id.database, Writing, "remember");
    var serve := Serve(0, Outcome.Computed(result));
    RunStep([], Start(0, id));
    RunStep([] + [Start(0, id)], arrive);
    RunStep([] + [Start(0, id)] + [arrive], Connect(0, 0, 0));
    RunStep([] + [Start(0, id)] + [arrive] + [Connect(0, 0, 0)], Enter(0));
    var entered := [] + [Start(0, id)] + [arrive] + [Connect(0, 0, 0)] + [Enter(0)];
    GetsIntoService(id);
    RunStep(entered, serve);
    RunStep(entered + [serve], Lose(0));
    LossAfterService(Run(entered), 0, 0, result);
    events := entered + [serve] + [Lose(0)];
  }
}
