// TcpServer: accepts connections on its own loop, names each one, hands it
// to the next I/O loop of its pool and keeps a registry of the live ones by
// name. Work the server gives to a loop with runInLoop or queueInLoop is
// recorded, in order, in the field scheduled; what that work then does is
// modelled by TcpConnections and EventLoops. The accept socket's own state
// is reduced to the Acceptor's listening flag.
module TcpServers {
  import opened Text
  import opened EventLoopThreadPools

  /** A callback slot: empty, the library's default, or a user function. */
  datatype Callback = NoCallback | DefaultCallback | UserCallback(id: nat)

  /**
   * A connection as the server creates and registers it: its name, the I/O
   * loop that owns it, its socket, its addresses (host:port text) and the
   * callbacks it was wired with. closeRemoves says that its close callback
   * is the server's removeConnection.
   */
  datatype Conn = Conn(name: string, loop: nat, sockfd: int, local: string, peer: string,
                       connectionCb: Callback, messageCb: Callback, writeCompleteCb: Callback,
                       closeRemoves: bool)

  /** The member functions the server binds and hands to a loop. */
  datatype Task =
    | AcceptorListen
    | ConnectEstablished(name: string)
    | ConnectDestroyed(name: string)
    | ServerRemoveInLoop(conn: Conn)

  datatype Scheduled = RunInLoop(loop: nat, task: Task) | QueueInLoop(loop: nat, task: Task)

  /** What snprintf(buf, size, ...) leaves in buf: at most size - 1 characters. */
  function Snprintf(s: string, size: nat): (r: string)
    requires size >= 1
    ensures |r| == if |s| < size then |s| else size - 1
    ensures r <= s
  {
    if |s| < size then s else s[..size - 1]
  }

  /** The suffix newConnection formats: ":" hostport "#" id. */
  function IdSuffix(hostport: string, id: int): string
  {
    ":" + hostport + "#" + DecimalString(id)
  }

  /** The connection name as written: the suffix goes through a 32-byte buffer. */
  function ConnNameAsWritten(name: string, hostport: string, id: int): (r: string)
    ensures r <= ConnName(name, hostport, id)
    ensures |r| == |name| + if |IdSuffix(hostport, id)| < 32 then |IdSuffix(hostport, id)| else 31
  {
    name + Snprintf(IdSuffix(hostport, id), 32)
  }

  /**
   * The connection name with the whole suffix kept: the server's name,
   * ':', the host:port, '#' and the id in decimal.
   */
  function ConnName(name: string, hostport: string, id: int): (r: string)
    ensures |r| > |name| + |hostport| + 2
    ensures r[..|name| + |hostport| + 2] == name + ":" + hostport + "#"
    ensures ParseDecimal(r[|name| + |hostport| + 2..]) == id
  {
    var head, t := name + ":" + hostport + "#", DecimalString(id);
    DecimalRoundTrip(id);
    SplitConcat(head, t);
    ConcatAssoc(name, ":", hostport);
    ConcatAssoc(name, ":" + hostport, "#");
    ConcatAssoc(name, ":" + hostport + "#", t);
    name + IdSuffix(hostport, id)
  }

  /** The longest host:port text toIpPort produces for IPv4. */
  const kLongestHostPort: string := "255.255.255.255:65535"

  /**
   * As written, connection 100000000 of a server listening on
   * 255.255.255.255:65535 gets the name of connection 10000000: the last
   * digit does not fit in the 32-byte buffer.
   */
  lemma TruncatedNamesCollide(name: string)
    ensures ConnNameAsWritten(name, kLongestHostPort, 10000000) == ConnNameAsWritten(name, kLongestHostPort, 100000000)
  {
    TenMillionDigits();
    assert DecimalString(100000000) == DecimalString(10000000) + "0";
    var short := IdSuffix(kLongestHostPort, 10000000);
    var long := IdSuffix(kLongestHostPort, 100000000);
    assert |short| == 31;
    assert long == short + "0";
    assert Snprintf(long, 32) == short;
  }

  lemma TenMillionDigits()
    ensures Digits(10000000, 10) == "10000000"
  {
    assert Digits(10, 10) == "10";
    assert Digits(100, 10) == "100";
    assert Digits(1000, 10) == "1000";
    assert Digits(10000, 10) == "10000";
    assert Digits(100000, 10) == "100000";
    assert Digits(1000000, 10) == "1000000";
  }

  /** Whenever the suffix fits the buffer, the name as written is the full name. */
  lemma AsWrittenAgreesWhenShort(name: string, hostport: string, id: int)
    requires |IdSuffix(hostport, id)| < 32
    ensures ConnNameAsWritten(name, hostport, id) == ConnName(name, hostport, id)
  {
  }

  /** The full name reads back its id. */
  lemma ConnNameReadsBack(name: string, hostport: string, id: int)
    ensures ConnName(name, hostport, id)[|name| + |hostport| + 2..] == DecimalString(id)
    ensures ParseDecimal(ConnName(name, hostport, id)[|name| + |hostport| + 2..]) == id
  {
    var head, t := name + ":" + hostport + "#", DecimalString(id);
    ConcatAssoc(name, ":", hostport);
    ConcatAssoc(name, ":" + hostport, "#");
    ConcatAssoc(name, ":" + hostport + "#", t);
    SplitConcat(head, t);
  }

  /** Distinct ids give distinct full names. */
  lemma ConnNamesDistinct(name: string, hostport: string, i: int, j: int)
    requires i != j
    ensures ConnName(name, hostport, i) != ConnName(name, hostport, j)
  {
    ConnNameReadsBack(name, hostport, i);
    ConnNameReadsBack(name, hostport, j);
  }

  predicate Distinct(s: seq<string>)
  {
    forall i, j :: 0 <= i < j < |s| ==> s[i] != s[j]
  }

  /** runInLoop(connectDestroyed) on each listed connection's loop, in list order. */
  function DestroyTasks(conns: map<string, Conn>, order: seq<string>): (r: seq<Scheduled>)
    requires forall x :: x in order ==> x in conns
    ensures |r| == |order|
    ensures forall i :: 0 <= i < |order| ==> r[i] == RunInLoop(conns[order[i]].loop, ConnectDestroyed(order[i]))
  {
    if order == [] then []
    else DestroyTasks(conns, order[..|order| - 1]) + [RunInLoop(conns[order[|order| - 1]].loop, ConnectDestroyed(order[|order| - 1]))]
  }

  /** The names of connections 1 .. nextConnId - 1. */
  ghost function Issued(name: string, hostport: string, nextConnId: nat): set<string>
    decreases nextConnId
  {
    if nextConnId <= 1 then {} else Issued(name, hostport, nextConnId - 1) + {ConnName(name, hostport, nextConnId - 1)}
  }

  /** The next id's name has not been issued before. */
  lemma {:induction false} NextNameFresh(name: string, hostport: string, nextConnId: nat, id: nat)
    requires nextConnId <= id
    ensures ConnName(name, hostport, id) !in Issued(name, hostport, nextConnId)
    decreases nextConnId
  {
    if nextConnId > 1 {
      NextNameFresh(name, hostport, nextConnId - 1, id);
      ConnNamesDistinct(name, hostport, nextConnId - 1, id);
    }
  }

  /**
   * std::less<std::string>: lexicographic, character by character, a proper
   * prefix first. Characters compare by code point, which for byte-sized
   * characters is char_traits<char>'s unsigned comparison.
   */
  predicate NameLess(a: string, b: string)
  {
    if a == [] then b != []
    else if b == [] then false
    else if a[0] != b[0] then a[0] < b[0]
    else NameLess(a[1..], b[1..])
  }

  lemma {:induction false} NameLessIrreflexive(a: string)
    ensures !NameLess(a, a)
    decreases |a|
  {
    if a != [] { NameLessIrreflexive(a[1..]); }
  }

  lemma {:induction false} NameLessTransitive(a: string, b: string, c: string)
    requires NameLess(a, b) && NameLess(b, c)
    ensures NameLess(a, c)
    decreases |a|
  {
    if a != [] && a[0] == b[0] && b[0] == c[0] {
      NameLessTransitive(a[1..], b[1..], c[1..]);
    }
  }

  lemma {:induction false} NameLessTotal(a: string, b: string)
    requires a != b
    ensures NameLess(a, b) || NameLess(b, a)
    decreases |a|
  {
    if a != [] && b != [] && a[0] == b[0] {
      assert a == [a[0]] + a[1..] && b == [b[0]] + b[1..];
      NameLessTotal(a[1..], b[1..]);
    }
  }

  /** Every non-empty set of names has a least one, which map iteration visits first. */
  lemma {:induction false} LeastName(names: set<string>) returns (m: string)
    requires names != {}
    ensures m in names && forall y :: y in names && y != m ==> NameLess(m, y)
    decreases |names|
  {
    var x :| x in names;
    if names == {x} {
      m := x;
    } else {
      var m' := LeastName(names - {x});
      if NameLess(x, m') {
        m := x;
        forall y | y in names && y != m
          ensures NameLess(m, y)
        {
          if y != m' { NameLessTransitive(x, m', y); }
        }
      } else {
        NameLessTotal(x, m');
        m := m';
      }
    }
  }

  /** Strictly ascending std::map key order. */
  predicate Ascending(s: seq<string>)
  {
    forall i, j :: 0 <= i < j < |s| ==> NameLess(s[i], s[j])
  }

  /** Every name in s comes before every name in rest. */
  predicate AllBefore(s: seq<string>, rest: set<string>)
  {
    forall i, y :: 0 <= i < |s| && y in rest ==> NameLess(s[i], y)
  }

  lemma AscendingDistinct(s: seq<string>)
    requires Ascending(s)
    ensures Distinct(s)
  {
    forall i, j | 0 <= i < j < |s|
      ensures s[i] != s[j]
    {
      if s[i] == s[j] { NameLessIrreflexive(s[i]); }
    }
  }

  /** Walking on to the least remaining name keeps the walk ascending. */
  lemma AscendingAppend(s: seq<string>, k: string, rest: set<string>)
    requires Ascending(s) && AllBefore(s, rest) && k in rest
    requires forall y :: y in rest && y != k ==> NameLess(k, y)
    ensures Ascending(s + [k]) && AllBefore(s + [k], rest - {k})
  {
    var t := s + [k];
    forall i, j | 0 <= i < j < |t|
      ensures NameLess(t[i], t[j])
    {
      if j < |s| { assert t[i] == s[i] && t[j] == s[j]; }
      else { assert t[i] == s[i]; }
    }
    forall i, y | 0 <= i < |t| && y in rest - {k}
      ensures NameLess(t[i], y)
    {
      if i < |s| { assert t[i] == s[i]; }
    }
  }

  /**
   * The runInLoop(connectDestroyed) calls for every entry of conns, in the
   * order std::map walks it: ascending name order.
   */
  method WalkRegistry(conns: map<string, Conn>) returns (ghost order: seq<string>, tasks: seq<Scheduled>)
    ensures Distinct(order)
    ensures forall x :: x in order <==> x in conns
    ensures forall i, j :: 0 <= i < j < |order| ==> NameLess(order[i], order[j])
    ensures tasks == DestroyTasks(conns, order)
  {
    order, tasks := [], [];
    var rest := conns.Keys;
    while rest != {}
      invariant rest <= conns.Keys
      invariant forall x :: x in order ==> x in conns && x !in rest
      invariant forall x :: x in conns ==> x in order || x in rest
      invariant Ascending(order) && AllBefore(order, rest)
      invariant tasks == DestroyTasks(conns, order)
      decreases |rest|
    {
      ghost var least := LeastName(rest);
      var k :| k in rest && forall y :: y in rest && y != k ==> NameLess(k, y);
      tasks := tasks + [RunInLoop(conns[k].loop, ConnectDestroyed(k))];
      assert (order + [k])[..|order|] == order;
      AscendingAppend(order, k, rest);
      order := order + [k];
      rest := rest - {k};
    }
    AscendingDistinct(order);
  }

  class TcpServer {
    /** loop_: the acceptor's loop. */
    const loop: nat
    const hostport: string
    const name: string
    const pool: EventLoopThreadPool
    var connectionCb: Callback
    var messageCb: Callback
    var writeCompleteCb: Callback
    var hasThreadInit: bool
    var started: bool
    /** acceptor_->listenning() */
    var listening: bool
    var nextConnId: nat
    /** connections_: name -> connection. */
    var connections: map<string, Conn>
    var scheduled: seq<Scheduled>

    ghost predicate Valid()
      reads this, pool
    {
      && pool.Valid() && pool.baseLoop == loop && pool.started == started && pool.numThreads >= 0
      && nextConnId >= 1
      && connections.Keys <= Issued(name, hostport, nextConnId)
      && forall k :: k in connections ==> connections[k].name == k
    }

    /** hostport is listenAddr.toIpPort(). */
    constructor (loop: nat, hostport: string, name: string)
      ensures Valid() && fresh(pool)
      ensures this.loop == loop && this.hostport == hostport && this.name == name
      ensures connectionCb == DefaultCallback && messageCb == DefaultCallback
      ensures writeCompleteCb == NoCallback && !hasThreadInit
      ensures !started && !listening && nextConnId == 1
      ensures connections == map[] && scheduled == []
      ensures pool.loops == [] && pool.numThreads == 0
    {
      this.loop := loop;
      this.hostport := hostport;
      this.name := name;
      pool := new EventLoopThreadPool(loop);
      connectionCb, messageCb, writeCompleteCb := DefaultCallback, DefaultCallback, NoCallback;
      hasThreadInit := false;
      started, listening, nextConnId := false, false, 1;
      connections, scheduled := map[], [];
    }

    method SetConnectionCallback(cb: Callback)
      modifies this`connectionCb
      ensures connectionCb == cb
    {
      connectionCb := cb;
    }

    method SetMessageCallback(cb: Callback)
      modifies this`messageCb
      ensures messageCb == cb
    {
      messageCb := cb;
    }

    method SetWriteCompleteCallback(cb: Callback)
      modifies this`writeCompleteCb
      ensures writeCompleteCb == cb
    {
      writeCompleteCb := cb;
    }

    method SetThreadInitCallback(present: bool)
      modifies this`hasThreadInit
      ensures hasThreadInit == present
    {
      hasThreadInit := present;
    }

    /** setThreadNum: the number of extra I/O threads, which may not be negative. */
    method SetThreadNum(numThreads: int)
      requires Valid() && 0 <= numThreads
      modifies pool`numThreads
      ensures Valid() && pool.numThreads == numThreads
    {
      pool.SetThreadNum(numThreads);
    }

    /**
     * start(): the pool starts on the first call only, and listen is handed
     * to the loop whenever the acceptor is not yet listening. startedLoops
     * are the loops the pool's threads report.
     */
    method Start(startedLoops: seq<nat>)
      requires Valid()
      requires !started ==> |startedLoops| == pool.numThreads
      modifies this`started, this`scheduled, pool`started, pool`threads, pool`loops, pool`initCalls
      ensures Valid() && started
      ensures old(started) ==> pool.loops == old(pool.loops) && pool.initCalls == old(pool.initCalls)
      ensures !old(started) ==> pool.loops == startedLoops
      ensures !old(started) ==>
        pool.initCalls == old(pool.initCalls) + (if pool.numThreads == 0 && hasThreadInit then [loop] else [])
      ensures scheduled == old(scheduled) + (if listening then [] else [RunInLoop(loop, AcceptorListen)])
    {
      if !started {
        started := true;
        pool.Start(hasThreadInit, startedLoops);
      }
      if !listening {
        scheduled := scheduled + [RunInLoop(loop, AcceptorListen)];
      }
    }

    /** The Acceptor::listen that start scheduled, run on the loop. */
    method Listen()
      modifies this`listening
      ensures listening
    {
      listening := true;
    }

    /**
     * newConnection(sockfd, peerAddr): the connection is named after the
     * current id, owned by the pool's next loop, wired with the server's
     * callbacks and registered under that name; its establishment is handed
     * to its own loop. local is getLocalAddr(sockfd) as host:port text.
     */
    method NewConnection(sockfd: int, peer: string, local: string)
      requires Valid()
      modifies this`nextConnId, this`connections, this`scheduled, pool`next
      ensures Valid()
      ensures nextConnId == old(nextConnId) + 1
      ensures pool.next == Advance(pool.loops, old(pool.next))
      ensures var nm := ConnName(name, hostport, old(nextConnId));
              var ioLoop := Pick(pool.loops, old(pool.next), loop);
              && nm !in old(connections)
              && connections == old(connections)[nm := Conn(nm, ioLoop, sockfd, local, peer, connectionCb, messageCb, writeCompleteCb, true)]
              && scheduled == old(scheduled) + [RunInLoop(ioLoop, ConnectEstablished(nm))]
    {
      var ioLoop := pool.GetNextLoop();
      var connName := name + IdSuffix(hostport, nextConnId);
      NextNameFresh(name, hostport, nextConnId, nextConnId);
      nextConnId := nextConnId + 1;
      var conn := Conn(connName, ioLoop, sockfd, local, peer, connectionCb, messageCb, writeCompleteCb, true);
      connections := connections[connName := conn];
      scheduled := scheduled + [RunInLoop(ioLoop, ConnectEstablished(connName))];
    }

    /** removeConnection(conn): hands removeConnectionInLoop to the server's loop. */
    method RemoveConnection(conn: Conn)
      modifies this`scheduled
      ensures scheduled == old(scheduled) + [RunInLoop(loop, ServerRemoveInLoop(conn))]
    {
      scheduled := scheduled + [RunInLoop(loop, ServerRemoveInLoop(conn))];
    }

    /**
     * removeConnectionInLoop(conn): the registered name must be present; its
     * one entry is erased, then connectDestroyed is queued on the
     * connection's own loop.
     */
    method RemoveConnectionInLoop(conn: Conn)
      requires Valid() && conn.name in connections
      modifies this`connections, this`scheduled
      ensures Valid()
      ensures connections == old(connections) - {conn.name}
      ensures scheduled == old(scheduled) + [QueueInLoop(conn.loop, ConnectDestroyed(conn.name))]
    {
      connections := connections - {conn.name};
      scheduled := scheduled + [QueueInLoop(conn.loop, ConnectDestroyed(conn.name))];
    }

    /**
     * ~TcpServer(): connectDestroyed is handed, once per registered
     * connection, to that connection's loop, and the registry lets go of
     * every connection. order is the order the registry was walked in.
     */
    method Destroy() returns (ghost order: seq<string>)
      requires Valid()
      modifies this`connections, this`scheduled
      ensures Valid()
      ensures Distinct(order)
      ensures forall x :: x in order <==> x in old(connections)
      ensures forall i, j :: 0 <= i < j < |order| ==> NameLess(order[i], order[j])
      ensures scheduled == old(scheduled) + DestroyTasks(old(connections), order)
      ensures connections == map[]
    {
      var tasks;
      order, tasks := WalkRegistry(connections);
      scheduled := scheduled + tasks;
      connections := map[];
    }
  }
}
