/**
 The connections of one worker thread (http/http_thread.cc): live ones under
 their descriptor, closed ones in a pool from which new clients are served.
 */
module ConnectionPool {
  import opened Common
  import opened Connection
  import Message

  class HttpThread {
    const server: Server
    var hashConnections: map<int, HttpConnection>
    var emptyConnections: seq<HttpConnection>
    ghost var all: set<HttpConnection>      // every connection object ever made

    ghost predicate LiveUnder(c: HttpConnection, k: int)
      reads c
    {
      c.fd == k && k > 0 && c.life != CLOSED && |c.requests| <= 1 && c.server == server
    }

    ghost predicate InPool(c: HttpConnection)
      reads c
    {
      Pooled(c.Value()) && c.server == server
    }

    /** A live connection is stored under its own descriptor, a pooled one is
        closed and empty, and every object is one or the other. */
    ghost predicate Valid()
      reads this, all
    {
      && NewRequest(server.blank)
      && (forall k :: k in hashConnections ==> hashConnections[k] in all && LiveUnder(hashConnections[k], k))
      && (forall i :: 0 <= i < |emptyConnections| ==> emptyConnections[i] in all && InPool(emptyConnections[i]))
      && (forall i, j :: 0 <= i < j < |emptyConnections| ==> emptyConnections[i] != emptyConnections[j])
      && (forall c :: c in all ==> c in emptyConnections || (c.fd in hashConnections && hashConnections[c.fd] == c))
    }

    constructor (server: Server)
      requires NewRequest(server.blank)
      ensures Valid() && all == {} && this.server == server
    {
      this.server := server;
      hashConnections, emptyConnections, all := map[], [], {};
    }

    /** `make_connection`: from the pool when it has one, new otherwise; either way
        the connection is the same. */
    method MakeConnection(fd: int) returns (conn: HttpConnection)
      requires Valid() && fd > 0
      modifies this`emptyConnections, if emptyConnections == [] then {} else {emptyConnections[0]}
      ensures conn.Value() == NewConn(fd) && conn.server == server
      ensures if old(emptyConnections) == [] then fresh(conn) && emptyConnections == []
              else conn == old(emptyConnections)[0] && emptyConnections == old(emptyConnections)[1..]
      ensures forall k :: k in hashConnections ==> hashConnections[k] != conn
      ensures forall i :: 0 <= i < |emptyConnections| ==> emptyConnections[i] != conn
      ensures forall c :: c in all && c != conn ==> c in emptyConnections || c !in old(emptyConnections)
    {
      if emptyConnections == [] {
        conn := new HttpConnection(fd, server);
        return;
      }
      conn := emptyConnections[0];
      emptyConnections := emptyConnections[1..];
      conn.Reopen(fd);
    }

    /** One client from the queue: a connection for it, watched for reading. */
    method TakeClient(fd: int)
      requires Valid() && fd > 0 && fd !in hashConnections
      modifies this, all
      ensures Valid() && fd in hashConnections
      ensures hashConnections == old(hashConnections)[fd := hashConnections[fd]]
      ensures hashConnections[fd].Value() == NewConn(fd).(reading := true)
      ensures if old(emptyConnections) == [] then all == old(all) + {hashConnections[fd]} && fresh(hashConnections[fd])
              else all == old(all) && hashConnections[fd] == old(emptyConnections)[0]
    {
      var conn := MakeConnection(fd);
      conn.reading := true;
      hashConnections := hashConnections[fd := conn];
      all := all + {conn};
    }

    /** `release_connection` */
    method ReleaseConnection(fd: int)
      modifies this`hashConnections, this`emptyConnections
      ensures hashConnections == old(hashConnections) - {fd}
      ensures emptyConnections == if fd in old(hashConnections) then old(emptyConnections) + [old(hashConnections)[fd]]
                                  else old(emptyConnections)
    {
      if fd in hashConnections {
        emptyConnections := emptyConnections + [hashConnections[fd]];
        hashConnections := hashConnections - {fd};
      }
    }

    /** The handler's loop over the client queue. */
    method TakeClients(clients: seq<int>)
      requires Valid()
      requires forall i :: 0 <= i < |clients| ==> clients[i] > 0 && clients[i] !in hashConnections
      requires forall i, j :: 0 <= i < j < |clients| ==> clients[i] != clients[j]
      modifies this, all
      ensures Valid() && fresh(all - old(all))
      ensures hashConnections.Keys == old(hashConnections).Keys + set fd | fd in clients
    {
      for n := 0 to |clients|
        invariant Valid() && fresh(all - old(all))
        invariant forall i :: n <= i < |clients| ==> clients[i] !in hashConnections
        invariant hashConnections.Keys == old(hashConnections).Keys + set fd | fd in clients[..n]
      {
        TakeClient(clients[n]);
        assert clients[..n + 1] == clients[..n] + [clients[n]];
      }
      assert clients[..|clients|] == clients;
    }

    /** `http_connection::close` of a live connection: it goes to the pool, closed
        and empty, and every other connection stays where and as it is. */
    method CloseConnection(fd: int)
      requires Valid() && fd in hashConnections && !hashConnections[fd].halted
      modifies this, hashConnections[fd]
      ensures Valid() && all == old(all)
      ensures hashConnections == old(hashConnections) - {fd}
      ensures emptyConnections == old(emptyConnections) + [old(hashConnections)[fd]]
      ensures old(hashConnections)[fd].Value() == Close(old(hashConnections[fd].Value()))
    {
      var conn := hashConnections[fd];
      assert forall k :: k in hashConnections && k != fd ==> hashConnections[k] != conn;
      assert forall i :: 0 <= i < |emptyConnections| ==> emptyConnections[i] != conn;
      ReleaseConnection(fd);
      conn.Shut();
      forall c | c in all
        ensures c in emptyConnections || (c.fd in hashConnections && hashConnections[c.fd] == c)
      {
        assert emptyConnections[|emptyConnections| - 1] == conn;
        if c != conn && c in old(emptyConnections) {
          var i :| 0 <= i < |old(emptyConnections)| && old(emptyConnections)[i] == c;
          assert emptyConnections[i] == c;
        }
      }
    }

    /** Bytes, end of file or an error for a live connection. */
    method Readable(fd: int, data: string, eof: bool, hard: bool)
      requires Valid() && fd in hashConnections && !hashConnections[fd].halted
      modifies hashConnections[fd]
      ensures Valid()
      ensures var e := if data != "" then Arrived(data) else if eof then Eof else ReadError(hard);
              hashConnections[fd].Value() == Handle(old(hashConnections[fd].Value()), server, e)
    {
      var conn := hashConnections[fd];
      assert forall k :: k in hashConnections && k != fd ==> hashConnections[k] != conn;
      assert forall i :: 0 <= i < |emptyConnections| ==> emptyConnections[i] != conn;
      ghost var c := conn.Value();
      conn.OnReadable(data, eof, hard);
      HandleStaysLive(c, server, if data != "" then Arrived(data) else if eof then Eof else ReadError(hard));
    }

    /** A live connection is ready for writing: it writes, or, closing and with
        nothing left to write, it goes to the pool. */
    method Writable(fd: int, n: int, hard: bool)
      requires Valid() && fd in hashConnections && !hashConnections[fd].halted
               && -1 <= n <= |hashConnections[fd].output|
      modifies this, hashConnections[fd]
      ensures Valid() && all == old(all)
      ensures old(hashConnections)[fd].Value() ==
              Handle(old(hashConnections[fd].Value()), server, Event.Writable(n, hard))
      ensures if old(hashConnections[fd].output) == "" && old(hashConnections[fd].life) == CLOSING
              then hashConnections == old(hashConnections) - {fd} &&
                   emptyConnections == old(emptyConnections) + [old(hashConnections)[fd]]
              else hashConnections == old(hashConnections) && emptyConnections == old(emptyConnections)
    {
      var conn := hashConnections[fd];
      assert forall k :: k in hashConnections && k != fd ==> hashConnections[k] != conn;
      assert forall i :: 0 <= i < |emptyConnections| ==> emptyConnections[i] != conn;
      if conn.output == "" && conn.life == CLOSING {
        CloseConnection(fd);
      } else {
        HandleStaysLive(conn.Value(), server, Event.Writable(n, hard));
        conn.OnWritable(n, hard);
      }
    }
  }

  /** Only the write handler closes a connection, and only when it is closing and
      has nothing left to write. */
  lemma HandleStaysLive(c: Conn, server: Server, e: Event)
    requires NewRequest(server.blank) && Possible(c, e) && |c.requests| <= 1
    requires e.Writable? ==> c.output != "" || c.life != CLOSING
    ensures var d := Handle(c, server, e);
            d.fd == c.fd && d.life != CLOSED && |d.requests| <= 1
  {
    if e.Arrived? {
      var b := c.input + e.data;
      var s := Serve(c.requests, b, server.blank);
      var c1 := c.(input := b);
      ServeLeavesSuffix(c.requests, b, server.blank);
      AnswerAllLife(c1, server, s.handled);
      ConcludeLife(AnswerAll(c1, server, s.handled), server, s.last);
    }
  }

  lemma ConcludeLife(c: Conn, server: Server, last: Option<Message.Outcome>)
    ensures var d := Conclude(c, server, last);
            d.fd == c.fd && (d.life == c.life || d.life == CLOSING)
  {
  }

  lemma {:induction false} AnswerAllLife(c: Conn, server: Server, rs: seq<Message.Req>)
    ensures var d := AnswerAll(c, server, rs);
            d.fd == c.fd && (d.life == c.life || d.life == CLOSING)
    decreases |rs|
  {
    if rs != [] {
      AnswerAllLife(Answer(c, server, rs[0]), server, rs[1..]);
    }
  }
}
